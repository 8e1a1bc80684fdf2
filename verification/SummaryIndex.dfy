/** The in-memory index of summary files, under concurrent loads, reloads, saves and deletions. */
module SummaryIndexes {
  import opened Wrappers

  type Summary = string
  type Files = map<string, Summary>

  function Find(files: Files, domain: string): Option<Summary> {
    if domain in files then Some(files[domain]) else None
  }

  function Put(files: Files, domain: string, summary: Option<Summary>): Files {
    match summary
    case None => files - {domain}
    case Some(s) => files[domain := s]
  }

  /** Who holds the index's write lock across several steps. */
  datatype Lock =
    | Free
    | Loading(loaded: Files, visited: set<string>)
    | Reloading(domain: string, found: Option<Option<Summary>>)

  /** `pending` holds, per provider, the index change that follows a file change; None removes the entry.
      There is at most one per provider because a provider's writers are serialised. */
  datatype State = State(files: Files, index: Option<Files>, lock: Lock, pending: map<string, Option<Summary>>)

  datatype Step =
    | WriteFile(saved: string, summary: Summary)
    | RemoveFiles(deleted: string)
    | ApplyPending(writer: string)
    | StartLoad
    | LoadOne(read: string)
    | FinishLoad
    | FailLoad
    | StartReload(reloaded: string)
    | ReadForReload
    | FinishReload
    | FailReload

  /** A listing returns at least every directory that exists throughout it. A provider without a pending
      change has not changed since the lock was taken, because its index change would still be waiting. */
  predicate Listed(st: State, visited: set<string>) {
    forall d | d in st.files && d !in st.pending :: d in visited
  }

  function Do(st: State, step: Step): State {
    match step
    case WriteFile(d, summary) =>
      if d in st.pending then st
      else st.(files := st.files[d := summary], pending := st.pending[d := Some(summary)])
    case RemoveFiles(d) =>
      if d in st.pending then st
      else st.(files := st.files - {d}, pending := st.pending[d := None])
    case ApplyPending(d) =>
      if d !in st.pending || !st.lock.Free? then st
      else st.(index := if st.index.Some? then Some(Put(st.index.value, d, st.pending[d])) else None, pending := st.pending - {d})
    case StartLoad => if st.lock.Free? && st.index.None? then st.(lock := Loading(map[], {})) else st
    case LoadOne(d) =>
      (match st.lock
       case Loading(loaded, visited) => st.(lock := Loading(Put(loaded, d, Find(st.files, d)), visited + {d}))
       case _ => st)
    case FinishLoad =>
      (match st.lock
       case Loading(loaded, visited) => if Listed(st, visited) then st.(index := Some(loaded), lock := Free) else st
       case _ => st)
    case FailLoad => if st.lock.Loading? then st.(lock := Free) else st
    case FailReload => if st.lock.Reloading? then st.(lock := Free) else st
    case StartReload(d) => if st.lock.Free? && st.index.Some? then st.(lock := Reloading(d, None)) else st
    case ReadForReload =>
      (match st.lock
       case Reloading(d, _) => st.(lock := Reloading(d, Some(Find(st.files, d))))
       case _ => st)
    case FinishReload =>
      (match st.lock
       case Reloading(d, Some(found)) =>
         st.(index := if st.index.Some? then Some(Put(st.index.value, d, found)) else None, lock := Free)
       case _ => st)
  }

  function Perform(st: State, steps: seq<Step>): State {
    if steps == [] then st else Do(Perform(st, steps[..|steps| - 1]), steps[|steps| - 1])
  }

  /** A loaded index agrees with disk for every provider without an operation in flight. */
  ghost predicate Agrees(st: State) {
    st.index.Some? ==> forall d | d !in st.pending :: Find(st.index.value, d) == Find(st.files, d)
  }

  /** What the holder of the lock has read is still on disk, for every provider without an operation in flight. */
  ghost predicate LockAgrees(st: State) {
    match st.lock
    case Free => true
    case Loading(loaded, visited) =>
      && (forall d | d in visited && d !in st.pending :: Find(loaded, d) == Find(st.files, d))
      && (forall d | d !in visited :: d !in loaded)
    case Reloading(d, found) => found.Some? && d !in st.pending ==> found.value == Find(st.files, d)
  }

  /** A pending change writes into the index exactly what the file now holds. */
  ghost predicate PendingTrue(st: State) {
    forall d | d in st.pending :: st.pending[d] == Find(st.files, d)
  }

  ghost predicate Valid(st: State) {
    Agrees(st) && LockAgrees(st) && PendingTrue(st)
  }

  lemma StepValid(st: State, step: Step)
    requires Valid(st)
    ensures Valid(Do(st, step))
  {
    var t := Do(st, step);
    if step.FinishLoad? && t != st {
      forall d | d !in t.pending ensures Find(t.index.value, d) == Find(t.files, d) {
        if d !in st.lock.visited { assert d !in st.lock.loaded; }
      }
    }
  }

  /** Under any interleaving of first loads, reloads, failing reads, saves and deletions, a loaded index equals the
      files for every provider with no operation in flight. */
  lemma {:induction false} IndexAgreesWithDisk(st: State, steps: seq<Step>)
    requires Valid(st)
    ensures Valid(Perform(st, steps)) && Agrees(Perform(st, steps))
  {
    hide Valid, Do;
    if steps != [] {
      IndexAgreesWithDisk(st, steps[..|steps| - 1]);
      StepValid(Perform(st, steps[..|steps| - 1]), steps[|steps| - 1]);
    }
    ValidAgrees(Perform(st, steps));
  }

  lemma ValidAgrees(st: State)
    requires Valid(st)
    ensures Agrees(st)
  {
  }

  lemma QuiescentIndexIsDisk(st: State, steps: seq<Step>)
    requires Valid(st)
    ensures var t := Perform(st, steps); t.index.Some? && t.pending == map[] ==> t.index.value == t.files
  {
    hide Perform, Do;
    var t := Perform(st, steps);
    IndexAgreesWithDisk(st, steps);
    if t.index.Some? && t.pending == map[] {
      forall d ensures Find(t.index.value, d) == Find(t.files, d) {}
      forall d | d in t.files || d in t.index.value ensures d in t.files && d in t.index.value && t.files[d] == t.index.value[d] {
        assert Find(t.index.value, d) == Find(t.files, d);
      }
    }
  }

  /** A save that meets no other operation of its provider shows in a loaded index as soon as it is through. */
  lemma SaveShows(st: State, domain: string, summary: Summary)
    requires st.lock.Free? && domain !in st.pending
    ensures var t := Do(Do(st, WriteFile(domain, summary)), ApplyPending(domain));
            && t.files == st.files[domain := summary] && t.pending == st.pending && t.lock.Free?
            && t.index == if st.index.Some? then Some(st.index.value[domain := summary]) else None
  {
    var s1 := Do(st, WriteFile(domain, summary));
    assert s1.pending - {domain} == st.pending;
  }

  /** So does a deletion. */
  lemma DeletionShows(st: State, domain: string)
    requires st.lock.Free? && domain !in st.pending
    ensures var t := Do(Do(st, RemoveFiles(domain)), ApplyPending(domain));
            && t.files == st.files - {domain} && t.pending == st.pending && t.lock.Free?
            && t.index == if st.index.Some? then Some(st.index.value - {domain}) else None
  {
    var s1 := Do(st, RemoveFiles(domain));
    assert s1.pending - {domain} == st.pending;
  }

  /** And a reload, which takes whatever the file holds. */
  lemma ReloadShows(st: State, domain: string)
    requires st.lock.Free? && st.index.Some?
    ensures var t := Do(Do(Do(st, StartReload(domain)), ReadForReload), FinishReload);
            && t.lock.Free? && t.files == st.files && t.index.Some?
            && (domain in st.files ==> t.index.value == st.index.value[domain := st.files[domain]])
            && (domain !in st.files ==> t.index.value == st.index.value - {domain})
  {
  }

  function Reads(listing: seq<string>): seq<Step> {
    if listing == [] then [] else Reads(listing[..|listing| - 1]) + [LoadOne(listing[|listing| - 1])]
  }

  lemma {:induction false} ReadsLoad(st: State, listing: seq<string>)
    requires st.lock == Loading(map[], {})
    ensures var t := Perform(st, Reads(listing));
            && t.lock.Loading? && t.files == st.files && t.index == st.index && t.pending == st.pending
            && (forall d :: d in t.lock.visited <==> d in listing)
            && (forall d :: Find(t.lock.loaded, d) == if d in listing then Find(st.files, d) else None)
  {
    if listing != [] {
      var front, last := listing[..|listing| - 1], listing[|listing| - 1];
      ReadsLoad(st, front);
      assert (Reads(front) + [LoadOne(last)])[..|Reads(front)|] == Reads(front);
      assert forall d :: d in listing <==> d in front || d == last;
    }
  }

  /** The first load, of a directory in which nothing is in flight, ends with exactly its files. */
  lemma LoadShowsFiles(st: State, listing: seq<string>)
    requires st.lock.Free? && st.index.None? && forall d | d in st.files :: d in listing
    ensures Do(Perform(Do(st, StartLoad), Reads(listing)), FinishLoad).index == Some(st.files)
  {
    hide Reads, Perform;
    var s1 := Do(st, StartLoad);
    ReadsLoad(s1, listing);
    var loaded := Perform(s1, Reads(listing)).lock.loaded;
    forall d | d in loaded || d in st.files ensures d in loaded && d in st.files && loaded[d] == st.files[d] {
      assert Find(loaded, d) == if d in listing then Find(st.files, d) else None;
    }
    assert loaded == st.files;
  }

  lemma InitiallyValid(files: Files)
    ensures Valid(State(files, None, Free, map[]))
  {
  }

  /** The index itself; each method runs under its lock. */
  class SummaryIndex {
    var entries: Option<Files>

    constructor ()
      ensures entries == None
    {
      entries := None;
    }

    /** Reads every file once, when first asked; a file that cannot be read fails the load, which then keeps nothing. */
    method All(listing: seq<string>, files: Files, unreadable: set<string>) returns (all: Option<Files>)
      requires forall d :: d in listing <==> d in files
      modifies this
      ensures old(entries).Some? ==> all == old(entries)
      ensures old(entries).None? ==> all == if exists d | d in unreadable :: d in files then None else Some(files)
      ensures entries == all
    {
      if entries.Some? {
        return entries;
      }
      var loaded: Files := map[];
      for i := 0 to |listing|
        invariant forall d :: d in loaded <==> d in listing[..i]
        invariant forall d | d in loaded :: d in files && loaded[d] == files[d]
        invariant forall d | d in listing[..i] :: d !in unreadable
      {
        assert listing[i] in files;
        if listing[i] in unreadable {
          return None;
        }
        loaded := loaded[listing[i] := files[listing[i]]];
      }
      assert listing[..|listing|] == listing;
      assert loaded == files;
      entries := Some(loaded);
      all := entries;
    }

    method Update(domain: string, summary: Summary)
      modifies this
      ensures entries == if old(entries).Some? then Some(Put(old(entries).value, domain, Some(summary))) else None
    {
      if entries.Some? {
        entries := Some(entries.value[domain := summary]);
      }
    }

    method Remove(domain: string)
      modifies this
      ensures entries == if old(entries).Some? then Some(Put(old(entries).value, domain, None)) else None
    {
      if entries.Some? {
        entries := Some(entries.value - {domain});
      }
    }

    /** Brings one entry up to date in a loaded index. Then it agrees with the file; a read that fails leaves the
        index as it was. */
    method Reload(domain: string, files: Files, readable: bool) returns (ok: bool)
      modifies this
      ensures ok <==> old(entries).None? || readable
      ensures !ok ==> entries == old(entries)
      ensures entries.Some? <==> old(entries).Some?
      ensures ok && entries.Some? ==> Find(entries.value, domain) == Find(files, domain)
      ensures entries.Some? ==> forall d | d != domain :: Find(entries.value, d) == Find(old(entries).value, d)
    {
      if entries.None? {
        return true;
      }
      if !readable {
        return false;
      }
      match Find(files, domain) {
        case Some(summary) => entries := Some(entries.value[domain := summary]);
        case None => entries := Some(entries.value - {domain});
      }
      ok := true;
    }
  }
}
