/** CVE search across providers: bounded queries per database, merged, sorted and truncated. */
module Search {
  import opened Wrappers
  import opened Strings

  /** The columns a search orders by. */
  datatype Key = Key(domain: string, date: Option<string>, trackingId: string, cve: string)

  /** A vulnerability row joined with its document; the payload never takes part in the order. */
  datatype Hit = Hit(key: Key, payload: string)

  // ---------------------------------------------------------------- the order

  /** Newest first, documents without a date last. */
  predicate Newer(a: Option<string>, b: Option<string>) {
    a.Some? && (b.None? || Less(b.value, a.value))
  }

  predicate Before(a: Key, b: Key) {
    if a.date != b.date then Newer(a.date, b.date)
    else if a.domain != b.domain then Less(a.domain, b.domain)
    else if a.trackingId != b.trackingId then Less(a.trackingId, b.trackingId)
    else Less(a.cve, b.cve)
  }

  /** The order of one provider's query. */
  predicate QueryBefore(a: Key, b: Key) {
    if a.date != b.date then Newer(a.date, b.date)
    else if a.trackingId != b.trackingId then Less(a.trackingId, b.trackingId)
    else Less(a.cve, b.cve)
  }

  lemma BeforeIsTotal(a: Key, b: Key)
    ensures Before(a, b) || a == b || Before(b, a)
    ensures !(Before(a, b) && Before(b, a)) && !Before(a, a)
  {
    OrderedStrings(a.domain, b.domain);
    OrderedStrings(a.trackingId, b.trackingId);
    OrderedStrings(a.cve, b.cve);
    if a.date.Some? && b.date.Some? { OrderedStrings(a.date.value, b.date.value); }
    LessIrreflexive(a.cve);
  }

  /** What a reader of the result may rely on when `a` is shown before `b`: no older date first, no missing date before a
      date, and equal dates by domain, then tracking id, then CVE. */
  predicate MayPrecede(a: Key, b: Key) {
    && (a.date.None? ==> b.date.None?)
    && (a.date.Some? && b.date.Some? ==> !Less(a.date.value, b.date.value))
    && (a.date == b.date ==> !Less(b.domain, a.domain))
    && (a.date == b.date && a.domain == b.domain ==> !Less(b.trackingId, a.trackingId))
    && (a.date == b.date && a.domain == b.domain && a.trackingId == b.trackingId ==> !Less(b.cve, a.cve))
  }

  /** The order is newest first, undated last, then by domain, tracking id and CVE. */
  lemma NotBeforeIs(a: Key, b: Key)
    ensures !Before(b, a) <==> MayPrecede(a, b)
  {
    OrderedStrings(a.domain, b.domain);
    OrderedStrings(a.trackingId, b.trackingId);
    OrderedStrings(a.cve, b.cve);
    LessIrreflexive(a.domain);
    LessIrreflexive(a.trackingId);
    if a.date.Some? && b.date.Some? {
      OrderedStrings(a.date.value, b.date.value);
      LessIrreflexive(a.date.value);
    }
  }

  lemma OrderedStrings(a: string, b: string)
    ensures Less(a, b) || a == b || Less(b, a)
    ensures !(Less(a, b) && Less(b, a))
  {
    LessTotal(a, b);
    if Less(a, b) { LessAsymmetric(a, b); }
  }

  lemma BeforeTransitive(a: Key, b: Key, c: Key)
    requires Before(a, b) && Before(b, c)
    ensures Before(a, c)
  {
    StringChain(a.domain, b.domain, c.domain);
    StringChain(a.trackingId, b.trackingId, c.trackingId);
    StringChain(a.cve, b.cve, c.cve);
    if a.date.Some? && b.date.Some? && c.date.Some? { StringChain(c.date.value, b.date.value, a.date.value); }
  }

  lemma StringChain(a: string, b: string, c: string)
    ensures Less(a, b) && Less(b, c) ==> Less(a, c) && a != c
  {
    if Less(a, b) && Less(b, c) {
      LessTransitive(a, b, c);
      LessIrreflexive(a);
    }
  }

  // ---------------------------------------------------------------- sorting

  type Order = (Key, Key) -> bool

  /** Inserts after every element that does not come later, as a stable sort does. */
  function InsertHit(before: Order, sorted: seq<Hit>, h: Hit): seq<Hit> {
    if sorted == [] || !before(h.key, sorted[|sorted| - 1].key) then sorted + [h]
    else InsertHit(before, sorted[..|sorted| - 1], h) + [sorted[|sorted| - 1]]
  }

  function Sort(before: Order, hits: seq<Hit>): seq<Hit> {
    if hits == [] then [] else InsertHit(before, Sort(before, hits[..|hits| - 1]), hits[|hits| - 1])
  }

  function Keys(hits: seq<Hit>): seq<Key> {
    seq(|hits|, k requires 0 <= k < |hits| => hits[k].key)
  }

  function Take<T>(s: seq<T>, n: nat): seq<T> {
    if |s| <= n then s else s[..n]
  }

  ghost predicate InOrder(keys: seq<Key>) {
    forall i, j :: 0 <= i < j < |keys| ==> !Before(keys[j], keys[i])
  }

  lemma KeysAppend(a: seq<Hit>, b: seq<Hit>)
    ensures Keys(a + b) == Keys(a) + Keys(b)
  {
  }

  /** Appending a key that comes before nothing already there keeps the order. */
  lemma AppendInOrder(keys: seq<Key>, last: Key)
    requires InOrder(keys) && forall k | k in keys :: !Before(last, k)
    ensures InOrder(keys + [last])
  {
    hide Before;
  }

  lemma LastIsLatest(keys: seq<Key>, k: Key)
    requires keys != [] && InOrder(keys) && k in keys
    ensures !Before(keys[|keys| - 1], k)
  {
    hide Before;
    var i :| 0 <= i < |keys| && keys[i] == k;
    BeforeIsTotal(k, k);
  }

  lemma NotBeforeAny(keys: seq<Key>, h: Key)
    requires keys != [] && InOrder(keys) && !Before(h, keys[|keys| - 1])
    ensures forall k | k in keys :: !Before(h, k)
  {
    hide Before;
    var last := keys[|keys| - 1];
    forall k | k in keys ensures !Before(h, k) {
      LastIsLatest(keys, k);
      BeforeIsTotal(k, last);
      if Before(h, k) && k != last { BeforeTransitive(h, k, last); }
    }
  }

  lemma KeysSplit(hits: seq<Hit>)
    requires hits != []
    ensures Keys(hits) == Keys(hits[..|hits| - 1]) + [hits[|hits| - 1].key]
  {
  }

  lemma FrontInOrder(keys: seq<Key>, last: Key)
    requires InOrder(keys + [last])
    ensures InOrder(keys)
  {
    hide Before;
    forall i, j | 0 <= i < j < |keys| ensures !Before(keys[j], keys[i]) {
      assert (keys + [last])[i] == keys[i] && (keys + [last])[j] == keys[j];
    }
  }

  lemma {:induction false} InsertHitSpec(sorted: seq<Hit>, h: Hit)
    requires InOrder(Keys(sorted))
    ensures var r := InsertHit(Before, sorted, h);
            InOrder(Keys(r)) && multiset(Keys(r)) == multiset(Keys(sorted)) + multiset{h.key}
  {
    hide Before, InOrder, Keys;
    var n := |sorted| - 1;
    KeysSplit(sorted + [h]);
    assert (sorted + [h])[..|sorted|] == sorted;
    if sorted == [] {
      NoKeys();
      AppendInOrder([], h.key);
    } else {
      KeysSplit(sorted);
      if !Before(h.key, sorted[n].key) {
        NotBeforeAny(Keys(sorted), h.key);
        AppendInOrder(Keys(sorted), h.key);
      } else {
        var front, last := sorted[..n], sorted[n];
        FrontInOrder(Keys(front), last.key);
        InsertHitSpec(front, h);
        var r := InsertHit(Before, front, h);
        KeysSplit(r + [last]);
        assert (r + [last])[..|r|] == r;
        BeforeIsTotal(h.key, last.key);
        forall k | k in Keys(r) ensures !Before(last.key, k) {
          assert k in multiset(Keys(r));
          if k in Keys(front) {
            assert k in Keys(sorted);
            LastIsLatest(Keys(sorted), k);
          }
        }
        AppendInOrder(Keys(r), last.key);
      }
    }
  }

  lemma NoKeys()
    ensures Keys([]) == [] && InOrder([])
  {
  }

  lemma {:induction false} SortSpec(hits: seq<Hit>)
    ensures InOrder(Keys(Sort(Before, hits))) && multiset(Keys(Sort(Before, hits))) == multiset(Keys(hits))
  {
    hide Before, InsertHit;
    if hits != [] {
      var n := |hits| - 1;
      SortSpec(hits[..n]);
      InsertHitSpec(Sort(Before, hits[..n]), hits[n]);
      assert Keys(hits) == Keys(hits[..n]) + [hits[n].key];
    }
  }

  lemma FirstIsLeast(keys: seq<Key>, k: Key)
    requires InOrder(keys) && k in keys
    ensures !Before(k, keys[0])
  {
    hide Before;
    var i :| 0 <= i < |keys| && keys[i] == k;
    BeforeIsTotal(k, k);
  }

  lemma TailInOrder(keys: seq<Key>)
    requires keys != [] && InOrder(keys)
    ensures InOrder(keys[1..]) && multiset(keys) == multiset{keys[0]} + multiset(keys[1..])
  {
    hide Before;
    assert keys == [keys[0]] + keys[1..];
  }

  /** A sequence of keys in order is determined by how often each key occurs. */
  lemma {:induction false} InOrderUnique(a: seq<Key>, b: seq<Key>)
    requires InOrder(a) && InOrder(b) && multiset(a) == multiset(b)
    ensures a == b
  {
    hide Before, InOrder;
    assert |a| == |multiset(a)| == |multiset(b)| == |b|;
    if a != [] {
      TailInOrder(a);
      TailInOrder(b);
      assert a[0] in multiset(b) && b[0] in multiset(a);
      FirstIsLeast(a, b[0]);
      FirstIsLeast(b, a[0]);
      BeforeIsTotal(a[0], b[0]);
      assert multiset(a[1..]) == multiset(a) - multiset{a[0]};
      InOrderUnique(a[1..], b[1..]);
      assert a == [a[0]] + a[1..] && b == [b[0]] + b[1..];
    }
  }

  // ---------------------------------------------------------------- merging sorted keys

  function Merge(a: seq<Key>, b: seq<Key>): seq<Key>
    decreases |a| + |b|
  {
    if a == [] then b
    else if b == [] then a
    else if Before(b[0], a[0]) then [b[0]] + Merge(a, b[1..])
    else [a[0]] + Merge(a[1..], b)
  }

  lemma PrependInOrder(first: Key, keys: seq<Key>)
    requires InOrder(keys) && forall k | k in keys :: !Before(k, first)
    ensures InOrder([first] + keys)
  {
    hide Before;
  }

  lemma NoneBeforeFirst(keys: seq<Key>, x: Key)
    requires keys != [] && InOrder(keys) && !Before(keys[0], x)
    ensures forall k | k in keys :: !Before(k, x)
  {
    hide Before;
    forall k | k in keys ensures !Before(k, x) {
      FirstIsLeast(keys, k);
      BeforeIsTotal(k, keys[0]);
      if Before(k, x) && k != keys[0] { BeforeTransitive(keys[0], k, x); }
    }
  }

  lemma {:induction false} MergeSpec(a: seq<Key>, b: seq<Key>)
    requires InOrder(a) && InOrder(b)
    ensures InOrder(Merge(a, b)) && multiset(Merge(a, b)) == multiset(a) + multiset(b)
    decreases |a| + |b|
  {
    hide Before, InOrder;
    if a != [] && b != [] {
      TailInOrder(a);
      TailInOrder(b);
      BeforeIsTotal(a[0], b[0]);
      BeforeIsTotal(a[0], a[0]);
      BeforeIsTotal(b[0], b[0]);
      var first, rest := if Before(b[0], a[0]) then b[0] else a[0], if Before(b[0], a[0]) then Merge(a, b[1..]) else Merge(a[1..], b);
      MergeSpec(a, b[1..]);
      MergeSpec(a[1..], b);
      NoneBeforeFirst(a, first);
      NoneBeforeFirst(b, first);
      forall k | k in rest ensures !Before(k, first) { assert k in multiset(rest); }
      PrependInOrder(first, rest);
    }
  }

  lemma TakeTail<T>(s: seq<T>, n: nat)
    requires n > 0 && s != []
    ensures Take(s, n) != [] && Take(s, n)[0] == s[0] && Take(s, n)[1..] == Take(s[1..], n - 1)
  {
  }

  lemma TakeEdge(a: seq<Key>, b: seq<Key>, k: nat, m: nat, n: nat)
    requires k <= m && k <= n && (k == 0 || a == [] || b == [])
    ensures Take(Merge(a, b), k) == Take(Merge(Take(a, m), Take(b, n)), k)
  {
    hide Before;
    if k == 0 { NoneTaken(Merge(a, b)); NoneTaken(Merge(Take(a, m), Take(b, n))); }
  }

  lemma NoneTaken<T>(s: seq<T>)
    ensures Take(s, 0) == []
  {
  }

  /** The first `k` of a merge only depend on the first `k` of each side. */
  lemma {:induction false} MergeTake(a: seq<Key>, b: seq<Key>, k: nat, m: nat, n: nat)
    requires k <= m && k <= n
    ensures Take(Merge(a, b), k) == Take(Merge(Take(a, m), Take(b, n)), k)
    decreases |a| + |b|
  {
    hide Before, Take;
    if k == 0 || a == [] || b == [] {
      TakeEdge(a, b, k, m, n);
    } else {
      var a1, b1 := Take(a, m), Take(b, n);
      TakeTail(a, m);
      TakeTail(b, n);
      if Before(b[0], a[0]) {
        MergeTake(a, b[1..], k - 1, m, n - 1);
        TakeCons(b[0], Merge(a, b[1..]), k);
        TakeCons(b[0], Merge(a1, b1[1..]), k);
      } else {
        MergeTake(a[1..], b, k - 1, m - 1, n);
        TakeCons(a[0], Merge(a[1..], b), k);
        TakeCons(a[0], Merge(a1[1..], b1), k);
      }
    }
  }

  lemma TakeCons<T>(x: T, s: seq<T>, k: nat)
    requires k > 0
    ensures Take([x] + s, k) == [x] + Take(s, k - 1)
  {
  }

  lemma TakeTake<T>(s: seq<T>, m: nat, k: nat)
    requires k <= m
    ensures Take(Take(s, m), k) == Take(s, k)
  {
  }

  // ---------------------------------------------------------------- the search

  /** One provider's vulnerability rows. */
  datatype Source = Source(domain: string, rows: seq<Hit>)

  ghost predicate ValidSource(p: Source) {
    forall h | h in p.rows :: h.key.domain == p.domain
  }

  const LAST_CHARACTER: string := ['\U{10FFFF}']

  /** The condition of the query: equality, or a range scan over the index. */
  predicate Matches(cve: string, prefix: bool, stored: string) {
    if prefix then AtMost(cve, stored) && Less(stored, cve + LAST_CHARACTER) else stored == cve
  }

  function Matching(rows: seq<Hit>, cve: string, prefix: bool): (found: seq<Hit>)
    ensures forall h :: h in found <==> h in rows && Matches(cve, prefix, h.key.cve)
  {
    if rows == [] then []
    else
      var n := |rows| - 1;
      Matching(rows[..n], cve, prefix) + if Matches(cve, prefix, rows[n].key.cve) then [rows[n]] else []
  }

  /** One provider's answer: its first matches in query order. */
  function FindByCve(p: Source, cve: string, prefix: bool, limit: nat): seq<Hit> {
    Take(Sort(QueryBefore, Matching(p.rows, cve, prefix)), limit)
  }

  /** All matches of all providers. */
  function AllMatches(sources: seq<Source>, cve: string, prefix: bool): seq<Hit> {
    if sources == [] then []
    else AllMatches(sources[..|sources| - 1], cve, prefix) + Matching(sources[|sources| - 1].rows, cve, prefix)
  }

  /** Everything the bounded queries return together. */
  function Answers(sources: seq<Source>, cve: string, prefix: bool, limit: nat): seq<Hit> {
    if sources == [] then []
    else Answers(sources[..|sources| - 1], cve, prefix, limit) + FindByCve(sources[|sources| - 1], cve, prefix, limit)
  }

  ghost predicate OneDomain(hits: seq<Hit>, domain: string) {
    forall h | h in hits :: h.key.domain == domain
  }

  lemma {:induction false} InsertHitSameOrder(sorted: seq<Hit>, h: Hit, domain: string)
    requires OneDomain(sorted, domain) && h.key.domain == domain
    ensures InsertHit(QueryBefore, sorted, h) == InsertHit(Before, sorted, h)
    ensures OneDomain(InsertHit(Before, sorted, h), domain)
  {
    if sorted != [] {
      assert sorted[|sorted| - 1] in sorted;
      InsertHitSameOrder(sorted[..|sorted| - 1], h, domain);
    }
  }

  /** Within one provider the query's order is the global one. */
  lemma {:induction false} SortSameOrder(hits: seq<Hit>, domain: string)
    requires OneDomain(hits, domain)
    ensures Sort(QueryBefore, hits) == Sort(Before, hits) && OneDomain(Sort(Before, hits), domain)
  {
    hide InsertHit, Before, QueryBefore;
    if hits != [] {
      var n := |hits| - 1;
      SortSameOrder(hits[..n], domain);
      InsertHitSameOrder(Sort(Before, hits[..n]), hits[n], domain);
    }
  }

  lemma KeysTake(hits: seq<Hit>, n: nat)
    ensures Keys(Take(hits, n)) == Take(Keys(hits), n)
  {
  }

  lemma SortedKeys(hits: seq<Hit>, keys: seq<Key>)
    requires InOrder(keys) && multiset(keys) == multiset(Keys(hits))
    ensures Keys(Sort(Before, hits)) == keys
  {
    hide Before, InOrder, Sort;
    SortSpec(hits);
    InOrderUnique(Keys(Sort(Before, hits)), keys);
  }

  lemma TakeInOrder(keys: seq<Key>, n: nat)
    requires InOrder(keys)
    ensures InOrder(Take(keys, n))
  {
    hide Before;
  }

  /** Sorting a concatenation merges the sorted parts. */
  lemma SortedUnion(a: seq<Hit>, b: seq<Hit>)
    ensures Keys(Sort(Before, a + b)) == Merge(Keys(Sort(Before, a)), Keys(Sort(Before, b)))
  {
    hide Before, InOrder, Sort, Merge, Keys;
    SortSpec(a);
    SortSpec(b);
    MergeSpec(Keys(Sort(Before, a)), Keys(Sort(Before, b)));
    KeysAppend(a, b);
    SortedKeys(a + b, Merge(Keys(Sort(Before, a)), Keys(Sort(Before, b))));
  }

  lemma SortingAgain(hits: seq<Hit>)
    requires InOrder(Keys(hits))
    ensures Keys(Sort(Before, hits)) == Keys(hits)
  {
    SortedKeys(hits, Keys(hits));
  }

  lemma AnswerKeys(p: Source, cve: string, prefix: bool, limit: nat)
    requires ValidSource(p)
    ensures Keys(Sort(Before, FindByCve(p, cve, prefix, limit)))
            == Take(Keys(Sort(Before, Matching(p.rows, cve, prefix))), limit)
  {
    hide Before, QueryBefore, InOrder, Sort, Matches;
    var all := Matching(p.rows, cve, prefix);
    SortSameOrder(all, p.domain);
    SortSpec(all);
    KeysTake(Sort(Before, all), limit);
    TakeInOrder(Keys(Sort(Before, all)), limit);
    SortingAgain(FindByCve(p, cve, prefix, limit));
  }

  /** Truncating every provider's answer beyond `k` loses nothing among the first `k` of all. */
  lemma {:induction false} TopOfAnswers(sources: seq<Source>, cve: string, prefix: bool, k: nat, limit: nat)
    requires k <= limit && forall p | p in sources :: ValidSource(p)
    ensures Take(Keys(Sort(Before, Answers(sources, cve, prefix, limit))), k)
            == Take(Keys(Sort(Before, AllMatches(sources, cve, prefix))), k)
  {
    hide Before, QueryBefore, Sort, Merge, Keys, Take, FindByCve, Matching, ValidSource;
    if sources != [] {
      var front, p := sources[..|sources| - 1], sources[|sources| - 1];
      TopOfAnswers(front, cve, prefix, k, limit);
      var a, b := Keys(Sort(Before, Answers(front, cve, prefix, limit))), Keys(Sort(Before, FindByCve(p, cve, prefix, limit)));
      var x, y := Keys(Sort(Before, AllMatches(front, cve, prefix))), Keys(Sort(Before, Matching(p.rows, cve, prefix)));
      SortedUnion(Answers(front, cve, prefix, limit), FindByCve(p, cve, prefix, limit));
      SortedUnion(AllMatches(front, cve, prefix), Matching(p.rows, cve, prefix));
      AnswerKeys(p, cve, prefix, limit);
      MergeTake(a, b, k, k, k);
      MergeTake(x, y, k, k, k);
      TakeTake(y, limit, k);
    }
  }

  lemma SortLength(before: Order, hits: seq<Hit>)
    ensures |Sort(before, hits)| == |hits|
  {
    if hits != [] {
      SortLength(before, hits[..|hits| - 1]);
      InsertLength(before, Sort(before, hits[..|hits| - 1]), hits[|hits| - 1]);
    }
  }

  lemma {:induction false} InsertLength(before: Order, sorted: seq<Hit>, h: Hit)
    ensures |InsertHit(before, sorted, h)| == |sorted| + 1
  {
    if sorted != [] { InsertLength(before, sorted[..|sorted| - 1], h); }
  }

  /** One more hit than asked for is enough to know whether anything was cut. */
  lemma {:induction false} AnswersTellTruncation(sources: seq<Source>, cve: string, prefix: bool, k: nat)
    ensures |Answers(sources, cve, prefix, k + 1)| > k <==> |AllMatches(sources, cve, prefix)| > k
    ensures |Answers(sources, cve, prefix, k + 1)| <= k ==>
              |Answers(sources, cve, prefix, k + 1)| == |AllMatches(sources, cve, prefix)|
  {
    if sources != [] {
      AnswersTellTruncation(sources[..|sources| - 1], cve, prefix, k);
      SortLength(QueryBefore, Matching(sources[|sources| - 1].rows, cve, prefix));
    }
  }

  /** The stored id is the one asked for, or starts with it and does not go on with U+10FFFF. */
  predicate Asked(cve: string, prefix: bool, stored: string) {
    if prefix then |stored| >= |cve| && stored[..|cve|] == cve && (|stored| > |cve| ==> stored[|cve|] != '\U{10FFFF}') else stored == cve
  }

  lemma MatchesIsAsked(cve: string, prefix: bool, stored: string)
    ensures Matches(cve, prefix, stored) <==> Asked(cve, prefix, stored)
  {
    if prefix { PrefixScanExact(cve, stored); }
  }

  /** The keys of `found` are those of the matching rows, each as often as there are such rows. */
  ghost predicate KeysOfMatches(sources: seq<Source>, cve: string, prefix: bool, keys: multiset<Key>) {
    forall k :: keys[k] == Occurrences(sources, cve, prefix, k)
  }

  /** How many rows of how many providers have this key, when it was asked for. */
  function Occurrences(sources: seq<Source>, cve: string, prefix: bool, k: Key): nat {
    if sources == [] || !Asked(cve, prefix, k.cve) then 0
    else Occurrences(sources[..|sources| - 1], cve, prefix, k) + multiset(Keys(sources[|sources| - 1].rows))[k]
  }

  lemma {:induction false} MatchingOccurs(rows: seq<Hit>, cve: string, prefix: bool, k: Key)
    ensures multiset(Keys(Matching(rows, cve, prefix)))[k] == if Asked(cve, prefix, k.cve) then multiset(Keys(rows))[k] else 0
  {
    hide Matches, Asked;
    if rows != [] {
      var n := |rows| - 1;
      MatchingOccurs(rows[..n], cve, prefix, k);
      MatchesIsAsked(cve, prefix, rows[n].key.cve);
      KeysAppend(Matching(rows[..n], cve, prefix), [rows[n]]);
      KeysAppend(Matching(rows[..n], cve, prefix), []);
      KeysSplit(rows);
      assert Keys([rows[n]]) == [rows[n].key];
      assert Matching(rows[..n], cve, prefix) + [] == Matching(rows[..n], cve, prefix);
    }
  }

  lemma {:induction false} MatchesOccur(sources: seq<Source>, cve: string, prefix: bool, k: Key)
    ensures multiset(Keys(AllMatches(sources, cve, prefix)))[k] == Occurrences(sources, cve, prefix, k)
  {
    hide Matches, Asked, Matching;
    if sources != [] {
      var front, last := sources[..|sources| - 1], sources[|sources| - 1];
      MatchesOccur(front, cve, prefix, k);
      MatchingOccurs(last.rows, cve, prefix, k);
      KeysAppend(AllMatches(front, cve, prefix), Matching(last.rows, cve, prefix));
      if !Asked(cve, prefix, k.cve) { NoOccurrence(front, cve, prefix, k); }
    }
  }

  lemma NoOccurrence(sources: seq<Source>, cve: string, prefix: bool, k: Key)
    requires !Asked(cve, prefix, k.cve)
    ensures Occurrences(sources, cve, prefix, k) == 0
  {
  }

  /** The kept keys of a sorted list are in order, and no cut key belongs before one of them. */
  lemma KeptAndCut(keys: seq<Key>, n: nat)
    requires InOrder(keys)
    ensures var kept, cut := Take(keys, n), keys[|Take(keys, n)|..];
            && multiset(kept) + multiset(cut) == multiset(keys)
            && |kept| == (if |keys| <= n then |keys| else n)
            && (forall i, j :: 0 <= i < j < |kept| ==> MayPrecede(kept[i], kept[j]))
            && (forall a, b | a in kept && b in cut :: MayPrecede(a, b))
  {
    hide Before, MayPrecede;
    var kept := Take(keys, n);
    assert kept == keys[..|kept|];
    assert keys == kept + keys[|kept|..];
    forall i, j | 0 <= i < j < |keys| ensures MayPrecede(keys[i], keys[j]) {
      NotBeforeIs(keys[i], keys[j]);
    }
    forall a, b | a in kept && b in keys[|kept|..] ensures MayPrecede(a, b) {
      var i :| 0 <= i < |kept| && kept[i] == a;
      var j :| 0 <= j < |keys| - |kept| && keys[|kept|..][j] == b;
      assert keys[i] == a && keys[|kept| + j] == b;
    }
  }

  /** Answers arrive in any order; the result is the top of all matches, and `truncated` is exact. The hits are in date
      order, they and the cut keys are all that was asked for, and no cut key belongs before a hit. */
  method SearchCve(arrived: seq<Source>, cve: string, prefix: bool, maxHits: nat)
    returns (hits: seq<Hit>, truncated: bool, ghost cut: multiset<Key>)
    requires forall p | p in arrived :: ValidSource(p)
    ensures Keys(hits) == Take(Keys(Sort(Before, AllMatches(arrived, cve, prefix))), maxHits)
    ensures truncated <==> |AllMatches(arrived, cve, prefix)| > maxHits
    ensures truncated <==> cut != multiset{}
    ensures |hits| <= maxHits && (truncated ==> |hits| == maxHits)
    ensures KeysOfMatches(arrived, cve, prefix, multiset(Keys(hits)) + cut)
    ensures forall i, j :: 0 <= i < j < |hits| ==> MayPrecede(hits[i].key, hits[j].key)
    ensures forall h, k | h in hits && k in cut :: MayPrecede(h.key, k)
  {
    hide Before, QueryBefore, Sort, FindByCve, ValidSource, MayPrecede, AllMatches, Answers, KeysOfMatches;
    var limit := maxHits + 1;
    hits := [];
    NoAnswers(cve, prefix, limit);
    for i := 0 to |arrived|
      invariant hits == Answers(arrived[..i], cve, prefix, limit)
    {
      AnswersNext(arrived, i, cve, prefix, limit);
      hits := hits + FindByCve(arrived[i], cve, prefix, limit);
    }
    assert arrived[..|arrived|] == arrived;
    TopOfAnswers(arrived, cve, prefix, maxHits, limit);
    AnswersTellTruncation(arrived, cve, prefix, maxHits);
    SortLength(Before, hits);
    hits := Sort(Before, hits);
    truncated := |hits| > maxHits;
    KeysTake(hits, maxHits);
    if |hits| > maxHits {
      hits := hits[..maxHits];
    }
    cut := SearchResult(arrived, cve, prefix, maxHits, hits);
  }

  lemma NoAnswers(cve: string, prefix: bool, limit: nat)
    ensures Answers([], cve, prefix, limit) == []
  {
  }

  lemma AnswersNext(arrived: seq<Source>, i: nat, cve: string, prefix: bool, limit: nat)
    requires i < |arrived|
    ensures Answers(arrived[..i + 1], cve, prefix, limit)
            == Answers(arrived[..i], cve, prefix, limit) + FindByCve(arrived[i], cve, prefix, limit)
  {
    assert arrived[..i + 1][..i] == arrived[..i];
  }

  /** The first keys of all matches, seen as hits, and the keys that are cut. */
  lemma SearchResult(arrived: seq<Source>, cve: string, prefix: bool, maxHits: nat, hits: seq<Hit>) returns (cut: multiset<Key>)
    requires Keys(hits) == Take(Keys(Sort(Before, AllMatches(arrived, cve, prefix))), maxHits)
    ensures cut != multiset{} <==> |AllMatches(arrived, cve, prefix)| > maxHits
    ensures |hits| <= maxHits && (cut != multiset{} ==> |hits| == maxHits)
    ensures KeysOfMatches(arrived, cve, prefix, multiset(Keys(hits)) + cut)
    ensures forall i, j :: 0 <= i < j < |hits| ==> MayPrecede(hits[i].key, hits[j].key)
    ensures forall h, k | h in hits && k in cut :: MayPrecede(h.key, k)
  {
    hide Before, Sort, MayPrecede, AllMatches, Take, InOrder;
    var all := AllMatches(arrived, cve, prefix);
    var keys := Keys(Sort(Before, all));
    SortSpec(all);
    SortLength(Before, all);
    KeptAndCut(keys, maxHits);
    var rest := keys[|Take(keys, maxHits)|..];
    cut := multiset(rest);
    assert |cut| == |rest|;
    forall k ensures (multiset(Keys(hits)) + cut)[k] == Occurrences(arrived, cve, prefix, k) { MatchesOccur(arrived, cve, prefix, k); }
    forall i, j | 0 <= i < j < |hits| ensures MayPrecede(hits[i].key, hits[j].key) {
      assert Keys(hits)[i] == hits[i].key && Keys(hits)[j] == hits[j].key;
    }
    forall h, k | h in hits && k in cut ensures MayPrecede(h.key, k) {
      var i :| 0 <= i < |hits| && hits[i] == h;
      assert Keys(hits)[i] == h.key && k in rest;
    }
  }

  // ---------------------------------------------------------------- arrival order

  lemma {:induction false} AllMatchesAppend(a: seq<Source>, b: seq<Source>, cve: string, prefix: bool)
    ensures AllMatches(a + b, cve, prefix) == AllMatches(a, cve, prefix) + AllMatches(b, cve, prefix)
  {
    hide Matching;
    if b == [] {
      assert a + b == a;
    } else {
      assert (a + b)[..|a + b| - 1] == a + b[..|b| - 1];
      AllMatchesAppend(a, b[..|b| - 1], cve, prefix);
    }
  }

  lemma SameLength<T>(a: seq<T>, b: seq<T>)
    requires multiset(a) == multiset(b)
    ensures |a| == |b|
  {
    assert |multiset(a)| == |a| && |multiset(b)| == |b|;
  }

  /** Where the last element of one permutation stands in the other. */
  lemma RemoveOne<T>(a: seq<T>, b: seq<T>) returns (i: nat)
    requires multiset(a) == multiset(b) && a != []
    ensures i < |b| && a == a[..|a| - 1] + [a[|a| - 1]] && b == b[..i] + ([a[|a| - 1]] + b[i + 1..])
    ensures multiset(a[..|a| - 1]) == multiset(b[..i] + b[i + 1..])
  {
    var last := a[|a| - 1];
    assert last in multiset(a);
    assert last in b;
    i :| 0 <= i < |b| && b[i] == last;
    assert a == a[..|a| - 1] + [last];
    assert b == b[..i] + ([last] + b[i + 1..]);
    assert multiset(b) == multiset(b[..i]) + (multiset{last} + multiset(b[i + 1..]));
    assert multiset(a) == multiset(a[..|a| - 1]) + multiset{last};
    assert multiset(b[..i] + b[i + 1..]) == multiset(b[..i]) + multiset(b[i + 1..]) == multiset(b) - multiset{last};
    assert multiset(a[..|a| - 1]) == multiset(a) - multiset{last};
  }

  lemma NoMatches(cve: string, prefix: bool)
    ensures AllMatches([], cve, prefix) == []
  {
  }

  lemma {:induction false} SameMatches(a: seq<Source>, b: seq<Source>, cve: string, prefix: bool)
    requires multiset(a) == multiset(b)
    ensures multiset(AllMatches(a, cve, prefix)) == multiset(AllMatches(b, cve, prefix))
  {
    hide Matching, AllMatches;
    NoMatches(cve, prefix);
    SameLength(a, b);
    if a != [] {
      var n := |a| - 1;
      var i := RemoveOne(a, b);
      var rest := b[..i] + b[i + 1..];
      SameMatches(a[..n], rest, cve, prefix);
      AllMatchesAppend(b[..i], [b[i]] + b[i + 1..], cve, prefix);
      AllMatchesAppend([b[i]], b[i + 1..], cve, prefix);
      AllMatchesAppend(b[..i], b[i + 1..], cve, prefix);
      AllMatchesAppend(a[..n], [a[n]], cve, prefix);
    }
  }

  lemma {:induction false} KeysMultiset(a: seq<Hit>, b: seq<Hit>)
    requires multiset(a) == multiset(b)
    ensures multiset(Keys(a)) == multiset(Keys(b))
  {
    hide Keys;
    SameLength(a, b);
    if a != [] {
      var n := |a| - 1;
      var i := RemoveOne(a, b);
      var rest := b[..i] + b[i + 1..];
      KeysMultiset(a[..n], rest);
      KeysAppend(b[..i], [b[i]] + b[i + 1..]);
      KeysAppend([b[i]], b[i + 1..]);
      KeysAppend(b[..i], b[i + 1..]);
      KeysAppend(a[..n], [a[n]]);
    } else {
      assert b == [];
    }
  }

  /** The order in which databases answer does not show in the result. */
  lemma ArrivalOrderIsIrrelevant(a: seq<Source>, b: seq<Source>, cve: string, prefix: bool)
    requires multiset(a) == multiset(b)
    ensures Keys(Sort(Before, AllMatches(a, cve, prefix))) == Keys(Sort(Before, AllMatches(b, cve, prefix)))
  {
    hide Before, Sort, Keys, Matching, InOrder;
    SameMatches(a, b, cve, prefix);
    KeysMultiset(AllMatches(a, cve, prefix), AllMatches(b, cve, prefix));
    SortSpec(AllMatches(b, cve, prefix));
    SortedKeys(AllMatches(a, cve, prefix), Keys(Sort(Before, AllMatches(b, cve, prefix))));
  }

  // ---------------------------------------------------------------- the prefix scan

  /** The range scan finds exactly the ids with the prefix whose next character is not U+10FFFF. */
  lemma {:induction false} PrefixScanExact(cve: string, stored: string)
    ensures Matches(cve, true, stored)
            <==> StartsWith(stored, cve) && (|stored| == |cve| || stored[|cve|] != LAST_CHARACTER[0])
  {
    if cve == "" {
      assert "" + LAST_CHARACTER == LAST_CHARACTER;
      assert StartsWith(stored, "");
      if stored != "" { assert Less(stored, LAST_CHARACTER) <==> stored[0] < LAST_CHARACTER[0]; }
    } else if stored != "" && stored[0] == cve[0] {
      PrefixScanExact(cve[1..], stored[1..]);
      assert (cve + LAST_CHARACTER)[1..] == cve[1..] + LAST_CHARACTER;
      assert cve == [cve[0]] + cve[1..] && stored == [stored[0]] + stored[1..];
      assert StartsWith(stored, cve) <==> StartsWith(stored[1..], cve[1..]) by {
        if |cve| <= |stored| {
          assert stored[..|cve|] == [stored[0]] + stored[1..][..|cve| - 1];
        }
      }
    } else {
      PrefixHead(cve, stored);
    }
  }

  lemma PrefixHead(cve: string, stored: string)
    ensures cve != "" && StartsWith(stored, cve) ==> stored != "" && stored[0] == cve[0]
  {
  }
}
