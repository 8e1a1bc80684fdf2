/** Comparison of nested trees that skips unchanged directories. */
module TreeDiff {
  import opened Wrappers
  import opened Strings
  import opened PathSets
  import opened History

  /** A tree entry is a blob, with its mode folded into its identity, or a directory. */
  datatype Node = Blob(oid: Oid) | Dir(entries: seq<Entry>)
  datatype Entry = Entry(name: string, node: Node)

  type Entries = seq<Entry>

  /** Identities of trees, and the order libgit2 reports a comparison in. */
  datatype Objects = Objects(id: Entries -> Oid, order: (Tree, Tree) -> seq<string>)

  predicate ValidName(name: string) {
    name != "" && '/' !in name
  }

  ghost predicate WellFormed(entries: Entries)
    decreases entries
  {
    && (forall i, j :: 0 <= i < j < |entries| ==> entries[i].name != entries[j].name)
    && (forall e | e in entries :: ValidName(e.name) && (e.node.Dir? ==> WellFormed(e.node.entries)))
  }

  ghost predicate WellFormedOpt(tree: Option<Entries>) {
    tree.Some? ==> WellFormed(tree.value)
  }

  /** Equal identities mean equal content. */
  ghost predicate ContentAddressed(objects: Objects) {
    Enumerates(objects.order) && forall a, b :: objects.id(a) == objects.id(b) ==> a == b
  }

  // ---------------------------------------------------------------- flattening

  /** Every file of a tree under its full path. */
  function Flatten(entries: Entries, prefix: string): Tree
    decreases entries
  {
    if entries == [] then map[]
    else
      var last := entries[|entries| - 1];
      Flatten(entries[..|entries| - 1], prefix)
      + match last.node
        case Blob(oid) => map[prefix + last.name := oid]
        case Dir(inner) => Flatten(inner, prefix + last.name + "/")
  }

  function FlattenEntry(e: Entry, prefix: string): Tree {
    match e.node
    case Blob(oid) => map[prefix + e.name := oid]
    case Dir(inner) => Flatten(inner, prefix + e.name + "/")
  }

  function FlattenOpt(tree: Option<Entries>, prefix: string): Tree {
    match tree
    case None => map[]
    case Some(entries) => Flatten(entries, prefix)
  }

  function EntriesOf(tree: Option<Entries>): Entries {
    match tree
    case None => []
    case Some(entries) => entries
  }

  function Lookup(entries: Entries, name: string): (node: Option<Node>)
    ensures node.Some? ==> Entry(name, node.value) in entries
    ensures node.None? ==> forall e | e in entries :: e.name != name
  {
    if entries == [] then None
    else if entries[0].name == name then Some(entries[0].node)
    else Lookup(entries[1..], name)
  }

  /** The first path component of `path` after `prefix`. */
  function Component(path: string): string {
    if path == "" || path[0] == '/' then "" else [path[0]] + Component(path[1..])
  }

  lemma {:induction false} ComponentOfName(name: string, rest: string)
    requires '/' !in name && (rest == "" || rest[0] == '/')
    ensures Component(name + rest) == name
  {
    if name != "" {
      assert (name + rest)[1..] == name[1..] + rest;
      assert name[0] in name;
      ComponentOfName(name[1..], rest);
    } else {
      assert name + rest == rest;
    }
  }

  /** A path of one entry starts with the prefix, and its next component is the entry's name. */
  lemma {:induction false} PathsOfEntry(e: Entry, prefix: string, p: string)
    requires ValidName(e.name) && p in FlattenEntry(e, prefix)
    ensures StartsWith(p, prefix) && Component(p[|prefix|..]) == e.name
    decreases e, 0
  {
    match e.node
    case Blob(oid) =>
      assert p[|prefix|..] == e.name + "";
      ComponentOfName(e.name, "");
    case Dir(inner) =>
      var deeper := prefix + e.name + "/";
      PathsStart(inner, deeper, p);
      var rest := "/" + p[|deeper|..];
      assert p == deeper + p[|deeper|..];
      assert p[..|prefix|] == prefix;
      assert p[|prefix|..] == e.name + rest;
      ComponentOfName(e.name, rest);
  }

  lemma {:induction false} PathsStart(entries: Entries, prefix: string, p: string)
    requires p in Flatten(entries, prefix)
    ensures StartsWith(p, prefix)
    decreases entries, 1
  {
    var n := |entries| - 1;
    if p in FlattenEntry(entries[n], prefix) {
      match entries[n].node {
        case Blob(oid) =>
        case Dir(inner) =>
          var deeper := prefix + entries[n].name + "/";
          PathsStart(inner, deeper, p);
          assert p[..|prefix|] == p[..|deeper|][..|prefix|] == prefix;
      }
    } else {
      PathsStart(entries[..n], prefix, p);
    }
  }

  lemma FlattenLast(entries: Entries, prefix: string)
    requires entries != []
    ensures var n := |entries| - 1;
            Flatten(entries, prefix) == Flatten(entries[..n], prefix) + FlattenEntry(entries[n], prefix)
  {
  }

  lemma WellFormedFront(entries: Entries)
    requires entries != [] && WellFormed(entries)
    ensures WellFormed(entries[..|entries| - 1])
  {
  }

  /** The flattened value at a path is decided by the entry its next component names. */
  lemma {:induction false} FlattenAt(entries: Entries, prefix: string, p: string)
    requires WellFormed(entries)
    ensures At(Flatten(entries, prefix), p)
            == if !StartsWith(p, prefix) then None
               else match Lookup(entries, Component(p[|prefix|..]))
                    case None => None
                    case Some(node) => At(FlattenEntry(Entry(Component(p[|prefix|..]), node), prefix), p)
    decreases |entries|
  {
    hide FlattenEntry;
    if entries != [] {
      var n := |entries| - 1;
      var last := entries[n];
      WellFormedFront(entries);
      FlattenAt(entries[..n], prefix, p);
      FlattenLast(entries, prefix);
      assert last in entries && ValidName(last.name);
      if p in FlattenEntry(last, prefix) { PathsOfEntry(last, prefix, p); }
      if StartsWith(p, prefix) {
        LookupLast(entries, Component(p[|prefix|..]));
      }
    }
  }

  lemma {:induction false} LookupLast(entries: Entries, name: string)
    requires entries != [] && WellFormed(entries)
    ensures var n := |entries| - 1;
            Lookup(entries, name) == if entries[n].name == name then Some(entries[n].node) else Lookup(entries[..n], name)
  {
    var n := |entries| - 1;
    var found := Lookup(entries, name);
    LookupMember(entries, entries[n]);
    if entries[n].name != name {
      var front := Lookup(entries[..n], name);
      if front.Some? {
        assert Entry(name, front.value) in entries;
        LookupMember(entries, Entry(name, front.value));
      }
      assert entries == entries[..n] + [entries[n]];
    }
  }

  lemma {:induction false} LookupMember(entries: Entries, e: Entry)
    requires WellFormed(entries) && e in entries
    ensures Lookup(entries, e.name) == Some(e.node)
  {
    var found := Lookup(entries, e.name);
    var i :| 0 <= i < |entries| && entries[i] == e;
    var j :| 0 <= j < |entries| && entries[j] == Entry(e.name, found.value);
    assert i == j;
  }

  // ---------------------------------------------------------------- the pruned comparison

  function Depth(entries: Entries): (d: nat)
    ensures d > 0
    decreases entries
  {
    if entries == [] then 1
    else
      var last := entries[|entries| - 1];
      var front := Depth(entries[..|entries| - 1]);
      var inner := match last.node case Blob(_) => 0 case Dir(inner) => 1 + Depth(inner);
      if front < inner then inner else front
  }

  function DepthOpt(tree: Option<Entries>): nat {
    match tree
    case None => 0
    case Some(entries) => Depth(entries)
  }

  lemma {:induction false} InnerDepth(entries: Entries, e: Entry)
    requires e in entries && e.node.Dir?
    ensures Depth(e.node.entries) < Depth(entries)
    decreases |entries|
  {
    var n := |entries| - 1;
    if e != entries[n] { InnerDepth(entries[..n], e); }
  }

  /** The subtree a name leads to, if it is one. */
  function Sub(tree: Option<Entries>, name: string): (sub: Option<Entries>)
    ensures DepthOpt(sub) < DepthOpt(tree) || (tree.None? && sub.None?)
  {
    match Lookup(EntriesOf(tree), name)
    case Some(Dir(inner)) => InnerDepth(tree.value, Entry(name, Dir(inner))); Some(inner)
    case _ => None
  }

  predicate HasFile(entries: Entries) {
    exists e | e in entries :: e.node.Blob?
  }

  /** Kind and identity of an entry. */
  function Identity(objects: Objects, node: Option<Node>): Option<(bool, Oid)> {
    match node
    case None => None
    case Some(Blob(oid)) => Some((false, oid))
    case Some(Dir(inner)) => Some((true, objects.id(inner)))
  }

  function TreeId(objects: Objects, tree: Option<Entries>): Option<Oid> {
    match tree
    case None => None
    case Some(entries) => Some(objects.id(entries))
  }

  predicate SameEntry(objects: Objects, prior: Option<Entries>, current: Option<Entries>, name: string) {
    Identity(objects, Lookup(EntriesOf(prior), name)) == Identity(objects, Lookup(EntriesOf(current), name))
  }

  /** Names of changed directories among some entries. */
  function ChangedAmong(objects: Objects, prior: Option<Entries>, current: Option<Entries>, entries: Entries): seq<string> {
    if entries == [] then []
    else
      var last := entries[|entries| - 1];
      ChangedAmong(objects, prior, current, entries[..|entries| - 1])
      + if SameEntry(objects, prior, current, last.name) then [] else [last.name]
  }

  /** Changed directory names, sorted and without duplicates. */
  function ChangedNames(objects: Objects, prior: Option<Entries>, current: Option<Entries>): seq<string> {
    InsertAll([], ChangedAmong(objects, prior, current, EntriesOf(prior) + EntriesOf(current)))
  }

  function WithPrefix(prefix: string, d: TreeDelta): TreeDelta {
    d.(oldPath := if d.oldPath.Some? then Some(prefix + d.oldPath.value) else None,
       newPath := if d.newPath.Some? then Some(prefix + d.newPath.value) else None)
  }

  /** libgit2's comparison of two whole trees, with the prefix restored. */
  function Native(objects: Objects, prior: Option<Entries>, current: Option<Entries>, prefix: string): seq<TreeDelta> {
    var deltas := Deltas(objects.order, FlattenOpt(prior, ""), FlattenOpt(current, ""));
    seq(|deltas|, k requires 0 <= k < |deltas| => WithPrefix(prefix, deltas[k]))
  }

  /** What comparing two trees reports, in order. */
  function Comparison(objects: Objects, prior: Option<Entries>, current: Option<Entries>, prefix: string): seq<TreeDelta>
    decreases DepthOpt(prior) + DepthOpt(current), 1, 0
  {
    if TreeId(objects, prior) == TreeId(objects, current) then []
    else if HasFile(EntriesOf(prior) + EntriesOf(current)) then Native(objects, prior, current, prefix)
    else Comparisons(objects, prior, current, prefix, ChangedNames(objects, prior, current))
  }

  function Comparisons(objects: Objects, prior: Option<Entries>, current: Option<Entries>, prefix: string, names: seq<string>): seq<TreeDelta>
    requires prior.Some? || current.Some?
    decreases DepthOpt(prior) + DepthOpt(current), 0, |names|
  {
    if names == [] then []
    else
      var name := names[|names| - 1];
      Comparisons(objects, prior, current, prefix, names[..|names| - 1])
      + Comparison(objects, Sub(prior, name), Sub(current, name), prefix + name + "/")
  }

  // ---------------------------------------------------------------- what a comparison must report

  /** Exactly one delta for each of `paths`, each the delta of that path. */
  ghost predicate Emits(deltas: seq<TreeDelta>, before: Tree, after: Tree, paths: set<string>) {
    && (forall i, j :: 0 <= i < j < |deltas| ==> deltas[i].newPath != deltas[j].newPath)
    && (forall d | d in deltas :: d.newPath.Some? && d.newPath.value in paths && d == DeltaOf(before, after, d.newPath.value))
    && (forall p | p in paths :: DeltaOf(before, after, p) in deltas)
  }

  lemma EmitsBoth(a: seq<TreeDelta>, b: seq<TreeDelta>, before: Tree, after: Tree, p: set<string>, q: set<string>)
    requires Emits(a, before, after, p) && Emits(b, before, after, q) && p !! q
    ensures Emits(a + b, before, after, p + q)
  {
    forall i, j | 0 <= i < j < |a + b| ensures (a + b)[i].newPath != (a + b)[j].newPath {
      if i < |a| <= j { assert a[i] in a && b[j - |a|] in b; }
    }
  }

  lemma EmitsElsewhere(deltas: seq<TreeDelta>, before: Tree, after: Tree, before2: Tree, after2: Tree, paths: set<string>)
    requires Emits(deltas, before, after, paths)
    requires forall p | p in paths :: At(before, p) == At(before2, p) && At(after, p) == At(after2, p)
    ensures Emits(deltas, before2, after2, paths)
  {
    forall p | p in paths ensures DeltaOf(before, after, p) == DeltaOf(before2, after2, p) {}
  }

  // ---------------------------------------------------------------- native comparisons

  lemma {:induction false} FlattenShift(entries: Entries, prefix: string, deeper: string, p: string)
    ensures At(Flatten(entries, prefix + deeper), prefix + p) == At(Flatten(entries, deeper), p)
    decreases entries
  {
    if entries != [] {
      hide Flatten, At;
      var n := |entries| - 1;
      FlattenShift(entries[..n], prefix, deeper, p);
      var name := entries[n].name;
      match entries[n].node {
        case Blob(oid) => BlobShift(name, oid, prefix, deeper, p);
        case Dir(inner) =>
          assert prefix + deeper + name + "/" == prefix + (deeper + name + "/");
          FlattenShift(inner, prefix, deeper + name + "/", p);
      }
      AtLast(entries, prefix + deeper, prefix + p);
      AtLast(entries, deeper, p);
    }
  }

  lemma BlobShift(name: string, oid: Oid, prefix: string, deeper: string, p: string)
    ensures At(map[prefix + deeper + name := oid], prefix + p) == At(map[deeper + name := oid], p)
  {
    assert prefix + deeper + name == prefix + (deeper + name);
    SamePrefix(prefix, p, deeper + name);
  }

  lemma AtLast(entries: Entries, prefix: string, p: string)
    requires entries != []
    ensures var n := |entries| - 1;
            var last := At(FlattenEntry(entries[n], prefix), p);
            At(Flatten(entries, prefix), p) == if last.Some? then last else At(Flatten(entries[..n], prefix), p)
  {
    hide Flatten;
    FlattenLast(entries, prefix);
  }

  lemma SamePrefix(prefix: string, a: string, b: string)
    ensures prefix + a == prefix + b <==> a == b
  {
    if prefix + a == prefix + b { assert (prefix + a)[|prefix|..] == a && (prefix + b)[|prefix|..] == b; }
  }

  function Prefixed(prefix: string, paths: set<string>): set<string> {
    set p | p in paths :: prefix + p
  }

  lemma FlattenOptShift(tree: Option<Entries>, prefix: string, p: string)
    ensures At(FlattenOpt(tree, prefix), prefix + p) == At(FlattenOpt(tree, ""), p)
  {
    if tree.Some? {
      FlattenShift(tree.value, prefix, "", p);
      assert prefix + "" == prefix;
    }
  }

  lemma ChangedShift(prior: Option<Entries>, current: Option<Entries>, prefix: string)
    ensures ChangedPaths(FlattenOpt(prior, prefix), FlattenOpt(current, prefix))
            == Prefixed(prefix, ChangedPaths(FlattenOpt(prior, ""), FlattenOpt(current, "")))
  {
    hide FlattenOpt;
    var changed := ChangedPaths(FlattenOpt(prior, prefix), FlattenOpt(current, prefix));
    var bare := ChangedPaths(FlattenOpt(prior, ""), FlattenOpt(current, ""));
    forall q | q in bare ensures prefix + q in changed {
      FlattenOptShift(prior, prefix, q);
      FlattenOptShift(current, prefix, q);
    }
    forall p | p in changed ensures p in Prefixed(prefix, bare) {
      PathsStartOpt(prior, prefix, p);
      PathsStartOpt(current, prefix, p);
      var q := p[|prefix|..];
      assert p == prefix + q;
      FlattenOptShift(prior, prefix, q);
      FlattenOptShift(current, prefix, q);
    }
  }

  lemma PathsStartOpt(tree: Option<Entries>, prefix: string, p: string)
    ensures p in FlattenOpt(tree, prefix) ==> StartsWith(p, prefix)
  {
    if p in FlattenOpt(tree, prefix) { PathsStart(tree.value, prefix, p); }
  }

  lemma DeltasEmit(order: (Tree, Tree) -> seq<string>, before: Tree, after: Tree)
    requires Enumerates(order)
    ensures Emits(Deltas(order, before, after), before, after, ChangedPaths(before, after))
  {
    assert EnumeratesChanges(order, before, after);
    var paths, deltas := order(before, after), Deltas(order, before, after);
    forall k | 0 <= k < |deltas| ensures deltas[k] == DeltaOf(before, after, paths[k]) && paths[k] in ChangedPaths(before, after) {
      assert paths[k] in paths;
    }
    forall p | p in ChangedPaths(before, after) ensures DeltaOf(before, after, p) in deltas {
      var k :| 0 <= k < |paths| && paths[k] == p;
      assert deltas[k] == DeltaOf(before, after, p);
    }
  }

  lemma PrefixedDelta(prior: Option<Entries>, current: Option<Entries>, prefix: string, q: string)
    ensures WithPrefix(prefix, DeltaOf(FlattenOpt(prior, ""), FlattenOpt(current, ""), q))
            == DeltaOf(FlattenOpt(prior, prefix), FlattenOpt(current, prefix), prefix + q)
  {
    hide FlattenOpt;
    FlattenOptShift(prior, prefix, q);
    FlattenOptShift(current, prefix, q);
  }

  lemma PrefixedEmits(prior: Option<Entries>, current: Option<Entries>, prefix: string, deltas: seq<TreeDelta>, shifted: seq<TreeDelta>, paths: set<string>)
    requires Emits(deltas, FlattenOpt(prior, ""), FlattenOpt(current, ""), paths)
    requires |shifted| == |deltas| && forall k | 0 <= k < |deltas| :: shifted[k] == WithPrefix(prefix, deltas[k])
    ensures Emits(shifted, FlattenOpt(prior, prefix), FlattenOpt(current, prefix), Prefixed(prefix, paths))
  {
    hide FlattenOpt, DeltaOf;
    forall k | 0 <= k < |deltas|
      ensures deltas[k].newPath.Some? && shifted[k].newPath == Some(prefix + deltas[k].newPath.value)
      ensures shifted[k] == DeltaOf(FlattenOpt(prior, prefix), FlattenOpt(current, prefix), prefix + deltas[k].newPath.value)
    {
      assert deltas[k] in deltas;
      PrefixedDelta(prior, current, prefix, deltas[k].newPath.value);
    }
    forall i, j | 0 <= i < j < |shifted| ensures shifted[i].newPath != shifted[j].newPath {
      SamePrefix(prefix, deltas[i].newPath.value, deltas[j].newPath.value);
    }
    forall p | p in Prefixed(prefix, paths) ensures DeltaOf(FlattenOpt(prior, prefix), FlattenOpt(current, prefix), p) in shifted {
      var q :| q in paths && p == prefix + q;
      var k :| 0 <= k < |deltas| && deltas[k] == DeltaOf(FlattenOpt(prior, ""), FlattenOpt(current, ""), q);
      PrefixedDelta(prior, current, prefix, q);
      assert shifted[k] in shifted;
    }
  }

  lemma NativeEmits(objects: Objects, prior: Option<Entries>, current: Option<Entries>, prefix: string)
    requires Enumerates(objects.order)
    ensures var before, after := FlattenOpt(prior, prefix), FlattenOpt(current, prefix);
            Emits(Native(objects, prior, current, prefix), before, after, ChangedPaths(before, after))
  {
    hide FlattenOpt, Deltas, Enumerates;
    var deltas := Deltas(objects.order, FlattenOpt(prior, ""), FlattenOpt(current, ""));
    DeltasEmit(objects.order, FlattenOpt(prior, ""), FlattenOpt(current, ""));
    PrefixedEmits(prior, current, prefix, deltas, Native(objects, prior, current, prefix),
                  ChangedPaths(FlattenOpt(prior, ""), FlattenOpt(current, "")));
    ChangedShift(prior, current, prefix);
  }

  // ---------------------------------------------------------------- directories

  /** Changed paths whose next component is among `names`. */
  ghost function ChangedUnder(prior: Option<Entries>, current: Option<Entries>, prefix: string, names: set<string>): set<string> {
    set p | p in ChangedPaths(FlattenOpt(prior, prefix), FlattenOpt(current, prefix))
            && StartsWith(p, prefix) && Component(p[|prefix|..]) in names
  }

  /** Without files at this level, a path's value is that of the subtree its next component names. */
  lemma SubAt(tree: Option<Entries>, prefix: string, name: string, p: string)
    requires WellFormedOpt(tree) && !HasFile(EntriesOf(tree))
    requires StartsWith(p, prefix) && Component(p[|prefix|..]) == name
    ensures At(FlattenOpt(tree, prefix), p) == At(FlattenOpt(Sub(tree, name), prefix + name + "/"), p)
  {
    if tree.Some? {
      FlattenAt(tree.value, prefix, p);
      var node := Lookup(tree.value, name);
      if node.Some? { assert Entry(name, node.value) in EntriesOf(tree); }
    }
  }

  lemma SubWellFormed(tree: Option<Entries>, name: string)
    requires WellFormedOpt(tree)
    ensures WellFormedOpt(Sub(tree, name))
  {
  }

  lemma SubPaths(tree: Option<Entries>, prefix: string, name: string, p: string)
    requires WellFormedOpt(tree)
    ensures p in FlattenOpt(Sub(tree, name), prefix + name + "/") ==> StartsWith(p, prefix) && Component(p[|prefix|..]) == name
  {
    if p in FlattenOpt(Sub(tree, name), prefix + name + "/") {
      var e := Entry(name, Dir(Sub(tree, name).value));
      assert e in EntriesOf(tree);
      PathsOfEntry(e, prefix, p);
    }
  }

  /** The changes below one directory are the changes of its two subtrees. */
  lemma SubChanges(prior: Option<Entries>, current: Option<Entries>, prefix: string, name: string)
    requires WellFormedOpt(prior) && WellFormedOpt(current) && !HasFile(EntriesOf(prior)) && !HasFile(EntriesOf(current))
    ensures var deeper := prefix + name + "/";
            ChangedUnder(prior, current, prefix, {name})
            == ChangedPaths(FlattenOpt(Sub(prior, name), deeper), FlattenOpt(Sub(current, name), deeper))
    ensures forall p | p in ChangedUnder(prior, current, prefix, {name}) ::
              && At(FlattenOpt(Sub(prior, name), prefix + name + "/"), p) == At(FlattenOpt(prior, prefix), p)
              && At(FlattenOpt(Sub(current, name), prefix + name + "/"), p) == At(FlattenOpt(current, prefix), p)
  {
    hide FlattenOpt, Sub, Component;
    var deeper := prefix + name + "/";
    var below := ChangedPaths(FlattenOpt(Sub(prior, name), deeper), FlattenOpt(Sub(current, name), deeper));
    forall p | p in below ensures p in ChangedUnder(prior, current, prefix, {name}) {
      SubPaths(prior, prefix, name, p);
      SubPaths(current, prefix, name, p);
      SubAt(prior, prefix, name, p);
      SubAt(current, prefix, name, p);
    }
    forall p | p in ChangedUnder(prior, current, prefix, {name})
      ensures p in below
      ensures At(FlattenOpt(Sub(prior, name), deeper), p) == At(FlattenOpt(prior, prefix), p)
      ensures At(FlattenOpt(Sub(current, name), deeper), p) == At(FlattenOpt(current, prefix), p)
    {
      SubAt(prior, prefix, name, p);
      SubAt(current, prefix, name, p);
    }
  }

  lemma {:induction false} ChangedAmongSpec(objects: Objects, prior: Option<Entries>, current: Option<Entries>, entries: Entries, name: string)
    ensures name in ChangedAmong(objects, prior, current, entries)
            <==> !SameEntry(objects, prior, current, name) && exists e | e in entries :: e.name == name
  {
    hide SameEntry;
    if entries != [] {
      var n := |entries| - 1;
      ChangedAmongSpec(objects, prior, current, entries[..n], name);
      assert entries == entries[..n] + [entries[n]];
    }
  }

  /** On one side only, of different kinds, or of one kind and different identity. */
  predicate Replaced(objects: Objects, before: Option<Node>, after: Option<Node>) {
    match (before, after)
    case (None, None) => false
    case (Some(Blob(a)), Some(Blob(b))) => a != b
    case (Some(Dir(a)), Some(Dir(b))) => objects.id(a) != objects.id(b)
    case _ => true
  }

  /** Exactly the names whose identities differ are descended into, each once. */
  lemma ChangedNamesSpec(objects: Objects, prior: Option<Entries>, current: Option<Entries>)
    ensures Ascending(ChangedNames(objects, prior, current))
    ensures forall name :: name in ChangedNames(objects, prior, current)
                           <==> Replaced(objects, Lookup(EntriesOf(prior), name), Lookup(EntriesOf(current), name))
    ensures forall name :: name in ChangedNames(objects, prior, current) <==> !SameEntry(objects, prior, current, name)
  {
    hide InsertAll, ChangedAmong, SameEntry, Replaced, Lookup;
    InsertAllSpec([], ChangedAmong(objects, prior, current, EntriesOf(prior) + EntriesOf(current)));
    forall name
      ensures name in ChangedNames(objects, prior, current) <==> !SameEntry(objects, prior, current, name)
      ensures SameEntry(objects, prior, current, name) <==> !Replaced(objects, Lookup(EntriesOf(prior), name), Lookup(EntriesOf(current), name))
    {
      ChangedNameSpec(objects, prior, current, name);
    }
  }

  lemma ChangedNameSpec(objects: Objects, prior: Option<Entries>, current: Option<Entries>, name: string)
    ensures name in ChangedAmong(objects, prior, current, EntriesOf(prior) + EntriesOf(current)) <==> !SameEntry(objects, prior, current, name)
    ensures SameEntry(objects, prior, current, name) <==> !Replaced(objects, Lookup(EntriesOf(prior), name), Lookup(EntriesOf(current), name))
  {
    hide ChangedAmong;
    var entries := EntriesOf(prior) + EntriesOf(current);
    ChangedAmongSpec(objects, prior, current, entries, name);
    var a, b := Lookup(EntriesOf(prior), name), Lookup(EntriesOf(current), name);
    if a.Some? { assert Entry(name, a.value) in entries; }
    if b.Some? { assert Entry(name, b.value) in entries; }
  }

  /** A directory with the same identity on both sides hides no change. */
  lemma SameEntryUnchanged(objects: Objects, prior: Option<Entries>, current: Option<Entries>, prefix: string, name: string)
    requires ContentAddressed(objects) && WellFormedOpt(prior) && WellFormedOpt(current)
    requires !HasFile(EntriesOf(prior)) && !HasFile(EntriesOf(current)) && SameEntry(objects, prior, current, name)
    ensures ChangedUnder(prior, current, prefix, {name}) == {}
  {
    hide FlattenOpt, Enumerates, ChangedUnder;
    SubChanges(prior, current, prefix, name);
    assert Sub(prior, name) == Sub(current, name);
  }

  lemma UnderUnion(prior: Option<Entries>, current: Option<Entries>, prefix: string, a: set<string>, b: set<string>)
    ensures ChangedUnder(prior, current, prefix, a + b)
            == ChangedUnder(prior, current, prefix, a) + ChangedUnder(prior, current, prefix, b)
    ensures a !! b ==> ChangedUnder(prior, current, prefix, a) !! ChangedUnder(prior, current, prefix, b)
  {
  }

  lemma {:induction false} ComparisonsEmit(objects: Objects, prior: Option<Entries>, current: Option<Entries>, prefix: string, names: seq<string>)
    requires ContentAddressed(objects) && WellFormedOpt(prior) && WellFormedOpt(current) && (prior.Some? || current.Some?)
    requires !HasFile(EntriesOf(prior)) && !HasFile(EntriesOf(current)) && Ascending(names)
    ensures Emits(Comparisons(objects, prior, current, prefix, names), FlattenOpt(prior, prefix), FlattenOpt(current, prefix),
                  ChangedUnder(prior, current, prefix, AsSet(names)))
    decreases DepthOpt(prior) + DepthOpt(current), 0, |names|
  {
    hide FlattenOpt, Emits, ContentAddressed, ChangedUnder, Comparison, Less, Sub, WellFormedOpt, Native;
    var before, after := FlattenOpt(prior, prefix), FlattenOpt(current, prefix);
    if names == [] {
      NothingUnder(prior, current, prefix);
      NothingEmitted(before, after);
    } else {
      var n := |names| - 1;
      var name := names[n];
      var subOld, subNew, deeper := Sub(prior, name), Sub(current, name), prefix + name + "/";
      ComparisonsEmit(objects, prior, current, prefix, names[..n]);
      SubWellFormed(prior, name);
      SubWellFormed(current, name);
      ComparisonEmits(objects, subOld, subNew, deeper);
      SubChanges(prior, current, prefix, name);
      EmitsElsewhere(Comparison(objects, subOld, subNew, deeper), FlattenOpt(subOld, deeper), FlattenOpt(subNew, deeper),
                     before, after, ChangedUnder(prior, current, prefix, {name}));
      LastIsNew(names);
      UnderUnion(prior, current, prefix, AsSet(names[..n]), {name});
      EmitsBoth(Comparisons(objects, prior, current, prefix, names[..n]), Comparison(objects, subOld, subNew, deeper), before, after,
                ChangedUnder(prior, current, prefix, AsSet(names[..n])), ChangedUnder(prior, current, prefix, {name}));
    }
  }

  lemma LastIsNew(names: seq<string>)
    requires names != [] && Ascending(names)
    ensures Ascending(names[..|names| - 1]) && AsSet(names) == AsSet(names[..|names| - 1]) + {names[|names| - 1]}
    ensures AsSet(names[..|names| - 1]) !! {names[|names| - 1]}
  {
    var n := |names| - 1;
    assert names == names[..n] + [names[n]];
    forall i | 0 <= i < n ensures names[i] != names[n] { AscendingDistinct(names, i, n); }
  }

  lemma NothingUnder(prior: Option<Entries>, current: Option<Entries>, prefix: string)
    ensures ChangedUnder(prior, current, prefix, AsSet([])) == {}
  {
  }

  lemma NothingEmitted(before: Tree, after: Tree)
    ensures Emits([], before, after, {})
  {
  }

  /** Every change lies below some changed directory. */
  lemma ChangesAreUnderChangedNames(objects: Objects, prior: Option<Entries>, current: Option<Entries>, prefix: string)
    requires ContentAddressed(objects) && WellFormedOpt(prior) && WellFormedOpt(current)
    requires !HasFile(EntriesOf(prior)) && !HasFile(EntriesOf(current))
    ensures ChangedUnder(prior, current, prefix, AsSet(ChangedNames(objects, prior, current)))
            == ChangedPaths(FlattenOpt(prior, prefix), FlattenOpt(current, prefix))
  {
    hide FlattenOpt, ContentAddressed, ChangedNames, Component, SameEntry;
    ChangedNamesSpec(objects, prior, current);
    forall p | p in ChangedPaths(FlattenOpt(prior, prefix), FlattenOpt(current, prefix))
      ensures p in ChangedUnder(prior, current, prefix, AsSet(ChangedNames(objects, prior, current)))
    {
      PathsStartOpt(prior, prefix, p);
      PathsStartOpt(current, prefix, p);
      var name := Component(p[|prefix|..]);
      assert p in ChangedUnder(prior, current, prefix, {name});
      if SameEntry(objects, prior, current, name) { SameEntryUnchanged(objects, prior, current, prefix, name); }
    }
  }

  lemma SameTree(objects: Objects, prior: Option<Entries>, current: Option<Entries>)
    requires ContentAddressed(objects) && TreeId(objects, prior) == TreeId(objects, current)
    ensures prior == current
  {
  }

  lemma NoFiles(prior: Option<Entries>, current: Option<Entries>)
    requires !HasFile(EntriesOf(prior) + EntriesOf(current))
    ensures !HasFile(EntriesOf(prior)) && !HasFile(EntriesOf(current))
  {
    forall e | e in EntriesOf(prior) || e in EntriesOf(current) ensures !e.node.Blob? {
      assert e in EntriesOf(prior) + EntriesOf(current);
    }
  }

  /** The pruned comparison reports exactly the differences of the flattened trees, each once and
      under its full path, whatever mixture of files, directories and replacements they contain. */
  lemma {:induction false} ComparisonEmits(objects: Objects, prior: Option<Entries>, current: Option<Entries>, prefix: string)
    requires ContentAddressed(objects) && WellFormedOpt(prior) && WellFormedOpt(current)
    ensures var before, after := FlattenOpt(prior, prefix), FlattenOpt(current, prefix);
            Emits(Comparison(objects, prior, current, prefix), before, after, ChangedPaths(before, after))
    decreases DepthOpt(prior) + DepthOpt(current), 1, 0
  {
    hide FlattenOpt, Emits, ChangedNames, Comparisons, Native, HasFile, WellFormedOpt;
    if TreeId(objects, prior) == TreeId(objects, current) {
      SameTree(objects, prior, current);
      NothingEmitted(FlattenOpt(prior, prefix), FlattenOpt(current, prefix));
      assert ChangedPaths(FlattenOpt(prior, prefix), FlattenOpt(current, prefix)) == {};
    } else if HasFile(EntriesOf(prior) + EntriesOf(current)) {
      NativeEmits(objects, prior, current, prefix);
    } else {
      NoFiles(prior, current);
      ChangedNamesSpec(objects, prior, current);
      ComparisonsEmit(objects, prior, current, prefix, ChangedNames(objects, prior, current));
      ChangesAreUnderChangedNames(objects, prior, current, prefix);
    }
  }

  /** A delta says what happened to its path, and names the blob that is there now. */
  predicate Tells(d: TreeDelta, before: Tree, after: Tree) {
    d.newPath.Some? && d.oldPath == d.newPath
    && var p := d.newPath.value;
       match d.status {
         case Added => p !in before && p in after && d.newId == Some(after[p])
         case Deleted => p in before && p !in after && d.newId.None?
         case Modified => p in before && p in after && before[p] != after[p] && d.newId == Some(after[p])
       }
  }

  function NewPaths(deltas: seq<TreeDelta>): set<Option<string>> {
    set d | d in deltas :: d.newPath
  }

  /** Every delta of a comparison is right about its path, no path has two, and a path without one is the same in both
      trees: the deltas carry the one tree to the other. */
  lemma ComparisonTells(objects: Objects, prior: Option<Entries>, current: Option<Entries>, prefix: string)
    requires ContentAddressed(objects) && WellFormedOpt(prior) && WellFormedOpt(current)
    ensures var before, after := FlattenOpt(prior, prefix), FlattenOpt(current, prefix);
            var deltas := Comparison(objects, prior, current, prefix);
            && (forall d | d in deltas :: Tells(d, before, after))
            && (forall i, j :: 0 <= i < j < |deltas| ==> deltas[i].newPath != deltas[j].newPath)
            && (forall p :: Some(p) !in NewPaths(deltas) ==> (p in before <==> p in after) && (p in before ==> before[p] == after[p]))
  {
    hide FlattenOpt, ContentAddressed, Comparison, WellFormedOpt;
    ComparisonEmits(objects, prior, current, prefix);
    EmittedTells(Comparison(objects, prior, current, prefix), FlattenOpt(prior, prefix), FlattenOpt(current, prefix));
  }

  lemma EmittedTells(deltas: seq<TreeDelta>, before: Tree, after: Tree)
    requires Emits(deltas, before, after, ChangedPaths(before, after))
    ensures forall d | d in deltas :: Tells(d, before, after)
    ensures forall i, j :: 0 <= i < j < |deltas| ==> deltas[i].newPath != deltas[j].newPath
    ensures forall p :: Some(p) !in NewPaths(deltas) ==> (p in before <==> p in after) && (p in before ==> before[p] == after[p])
  {
    forall p | p in ChangedPaths(before, after) ensures Some(p) in NewPaths(deltas) {
      var d := DeltaOf(before, after, p);
      assert d in deltas && d.newPath == Some(p);
    }
    forall p | p in before || p in after
      ensures Some(p) in NewPaths(deltas) || ((p in before <==> p in after) && (p in before ==> before[p] == after[p]))
    {
      assert p !in ChangedPaths(before, after) ==> At(before, p) == At(after, p);
    }
  }

  function PathsOf(deltas: seq<TreeDelta>): seq<string> {
    seq(|deltas|, k requires 0 <= k < |deltas| => if deltas[k].newPath.Some? then deltas[k].newPath.value else "")
  }

  /** The order of a comparison is one of the orders the rest of the model allows for: enumerating the flat
      difference in it reproduces the comparison, delta for delta. */
  lemma ComparisonIsEnumeration(objects: Objects, prior: Option<Entries>, current: Option<Entries>, order: (Tree, Tree) -> seq<string>)
    requires ContentAddressed(objects) && WellFormedOpt(prior) && WellFormedOpt(current)
    requires order(FlattenOpt(prior, ""), FlattenOpt(current, "")) == PathsOf(Comparison(objects, prior, current, ""))
    ensures EnumeratesChanges(order, FlattenOpt(prior, ""), FlattenOpt(current, ""))
    ensures Deltas(order, FlattenOpt(prior, ""), FlattenOpt(current, "")) == Comparison(objects, prior, current, "")
  {
    hide FlattenOpt, ContentAddressed, Comparison, WellFormedOpt;
    ComparisonEmits(objects, prior, current, "");
    EmittedEnumerates(Comparison(objects, prior, current, ""), order, FlattenOpt(prior, ""), FlattenOpt(current, ""));
  }

  lemma EmittedEnumerates(deltas: seq<TreeDelta>, order: (Tree, Tree) -> seq<string>, before: Tree, after: Tree)
    requires Emits(deltas, before, after, ChangedPaths(before, after)) && order(before, after) == PathsOf(deltas)
    ensures EnumeratesChanges(order, before, after) && Deltas(order, before, after) == deltas
  {
    var paths := PathsOf(deltas);
    forall k | 0 <= k < |deltas| ensures deltas[k] == DeltaOf(before, after, paths[k]) && paths[k] in ChangedPaths(before, after) {
      assert deltas[k] in deltas;
    }
    forall i, j | 0 <= i < j < |paths| ensures paths[i] != paths[j] {
      assert deltas[i] in deltas && deltas[j] in deltas;
    }
    forall p | p in ChangedPaths(before, after) ensures p in paths {
      var k :| 0 <= k < |deltas| && deltas[k] == DeltaOf(before, after, p);
      assert paths[k] == p;
    }
  }
}
