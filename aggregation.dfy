/**
 * What every refresh does with the items it collected: keep the first of each group of
 * related items (`filter` + `findIndex`), sort newest first (`sort` with the comparator
 * `new Date(b.rawDate) - new Date(a.rawDate)`), cut to a cap (`slice(0, cap)`), and the
 * per-name counters and image counts of the statistics endpoints.
 */
module Aggregation {
  import opened Wrappers
  import opened Strings
  import opened News

  // ---------------------------------------------------------------------------------
  // Subsequences

  /** `a` is `b` with some elements left out, order kept. */
  predicate IsSubsequence<T(==)>(a: seq<T>, b: seq<T>)
    decreases |b|
  {
    if a == [] then true
    else if b == [] then false
    else
      (a[|a| - 1] == b[|b| - 1] && IsSubsequence(a[..|a| - 1], b[..|b| - 1]))
      || IsSubsequence(a, b[..|b| - 1])
  }

  lemma {:induction false} SubsequenceMembers<T>(a: seq<T>, b: seq<T>)
    requires IsSubsequence(a, b)
    ensures |a| <= |b|
    ensures multiset(a) <= multiset(b)
    ensures forall x :: x in a ==> x in b
    decreases |b|
  {
    if a != [] {
      if a[|a| - 1] == b[|b| - 1] && IsSubsequence(a[..|a| - 1], b[..|b| - 1]) {
        SubsequenceMembers(a[..|a| - 1], b[..|b| - 1]);
        assert a == a[..|a| - 1] + [a[|a| - 1]];
        assert b == b[..|b| - 1] + [b[|b| - 1]];
      } else {
        SubsequenceMembers(a, b[..|b| - 1]);
        assert b == b[..|b| - 1] + [b[|b| - 1]];
      }
    }
  }

  // ---------------------------------------------------------------------------------
  // First-seen deduplication

  /** The two `findIndex` predicates of the core: same `sourceUrl` (server.js), or same
      `sourceUrl` or same `description` (both Telegram parsers). */
  datatype DedupRule = SameUrl | SameUrlOrDescription

  predicate Related(rule: DedupRule, a: NewsItem, b: NewsItem) {
    a.sourceUrl == b.sourceUrl || (rule == SameUrlOrDescription && a.description == b.description)
  }

  /** `s.findIndex(t => related(t, x))`: the first related position, or -1. */
  function FindIndex(rule: DedupRule, s: seq<NewsItem>, x: NewsItem): (r: int)
    ensures -1 <= r < |s|
    ensures r >= 0 ==> Related(rule, s[r], x) && forall j :: 0 <= j < r ==> !Related(rule, s[j], x)
    ensures r == -1 ==> forall j :: 0 <= j < |s| ==> !Related(rule, s[j], x)
  {
    if s == [] then -1
    else if Related(rule, s[0], x) then 0
    else
      var k := FindIndex(rule, s[1..], x);
      if k == -1 then -1 else k + 1
  }

  /** Position `i` holds the first item of its kind: nothing before it is related to it. */
  predicate FirstOfKind(rule: DedupRule, s: seq<NewsItem>, i: nat)
    requires i < |s|
  {
    forall k :: 0 <= k < i ==> !Related(rule, s[k], s[i])
  }

  /** The filter's test `index === self.findIndex(...)` is "first of its kind". */
  lemma FindIndexFirst(rule: DedupRule, s: seq<NewsItem>, i: nat)
    requires i < |s|
    ensures FindIndex(rule, s, s[i]) == i <==> FirstOfKind(rule, s, i)
  {
    assert Related(rule, s[i], s[i]);
  }

  /** `s.filter((item, index, self) => index === self.findIndex(t => related(t, item)))`. */
  function Dedup(rule: DedupRule, s: seq<NewsItem>): (d: seq<NewsItem>)
    ensures |d| <= |s|
    ensures AllDated(s) ==> AllDated(d)
  {
    if s == [] then []
    else
      var n := |s| - 1;
      assert AllDated(s) ==> AllDated(s[..n]);
      Dedup(rule, s[..n]) + (if FindIndex(rule, s, s[n]) == n then [s[n]] else [])
  }

  /** No two kept items are related (pairwise distinct URLs, and descriptions for the OR rule). */
  predicate Pairwise(rule: DedupRule, s: seq<NewsItem>) {
    forall i, j :: 0 <= i < |s| && 0 <= j < |s| && i != j ==> !Related(rule, s[i], s[j])
  }

  /** Some position of `s` holding `x` is the first of its kind. */
  predicate KeptFrom(rule: DedupRule, s: seq<NewsItem>, x: NewsItem) {
    exists i :: 0 <= i < |s| && s[i] == x && FirstOfKind(rule, s, i)
  }

  lemma FirstOfKindPrefix(rule: DedupRule, s: seq<NewsItem>, n: nat, i: nat)
    requires i < n <= |s|
    ensures FirstOfKind(rule, s[..n], i) <==> FirstOfKind(rule, s, i)
  {
    assert forall k :: 0 <= k <= i ==> s[..n][k] == s[k];
  }

  /** One step of the filter: the last candidate is kept exactly when it is the first of its kind. */
  lemma DedupStep(rule: DedupRule, s: seq<NewsItem>)
    requires s != []
    ensures Dedup(rule, s) == Dedup(rule, s[..|s| - 1]) + (if FirstOfKind(rule, s, |s| - 1) then [s[|s| - 1]] else [])
  {
    FindIndexFirst(rule, s, |s| - 1);
  }

  /** Deduplication keeps the order: its result is a subsequence of the candidates. */
  lemma {:induction false} DedupSubsequence(rule: DedupRule, s: seq<NewsItem>)
    ensures IsSubsequence(Dedup(rule, s), s)
    decreases |s|
  {
    if s != [] {
      var n := |s| - 1;
      var p := s[..n];
      DedupSubsequence(rule, p);
      DedupStep(rule, s);
      var d := Dedup(rule, s);
      if FirstOfKind(rule, s, n) {
        assert d == Dedup(rule, p) + [s[n]];
        assert d[..|d| - 1] == Dedup(rule, p);
        assert d[|d| - 1] == s[|s| - 1];
      } else {
        assert d == Dedup(rule, p);
        if d != [] { assert IsSubsequence(d, s[..|s| - 1]); }
      }
    }
  }

  /** Every kept item is the first of its kind among the candidates. */
  lemma {:induction false} DedupKeepsFirstOfKind(rule: DedupRule, s: seq<NewsItem>)
    ensures forall x :: x in Dedup(rule, s) ==> KeptFrom(rule, s, x)
    decreases |s|
  {
    if s != [] {
      var n := |s| - 1;
      var p := s[..n];
      DedupKeepsFirstOfKind(rule, p);
      DedupStep(rule, s);
      forall x | x in Dedup(rule, p) ensures KeptFrom(rule, s, x) {
        var i :| 0 <= i < |p| && p[i] == x && FirstOfKind(rule, p, i);
        FirstOfKindPrefix(rule, s, n, i);
        assert s[i] == x;
      }
    }
  }

  /** Every first-of-kind candidate is kept. */
  lemma DedupKeepsAllFirsts(rule: DedupRule, s: seq<NewsItem>)
    ensures forall i :: 0 <= i < |s| && FirstOfKind(rule, s, i) ==> s[i] in Dedup(rule, s)
  {
    forall i | 0 <= i < |s| && FirstOfKind(rule, s, i) ensures s[i] in Dedup(rule, s) {
      DedupKeepsFirstAt(rule, s, i);
    }
  }

  lemma InPrefix(x: NewsItem, a: seq<NewsItem>, b: seq<NewsItem>)
    requires x in a
    ensures x in a + b
  {
    var k :| 0 <= k < |a| && a[k] == x;
    assert (a + b)[k] == x;
  }

  lemma {:induction false} DedupKeepsFirstAt(rule: DedupRule, s: seq<NewsItem>, i: nat)
    requires i < |s| && FirstOfKind(rule, s, i)
    ensures s[i] in Dedup(rule, s)
    decreases |s|
  {
    var n := |s| - 1;
    var p := s[..n];
    DedupStep(rule, s);
    var d, e := Dedup(rule, p), Dedup(rule, s);
    var tail := if FirstOfKind(rule, s, n) then [s[n]] else [];
    assert e == d + tail;
    if i < n {
      FirstOfKindPrefix(rule, s, n, i);
      DedupKeepsFirstAt(rule, p, i);
      assert p[i] == s[i];
      InPrefix(s[i], d, tail);
    } else {
      assert i == n && tail == [s[n]];
      assert (d + tail)[|d|] == s[n];
    }
  }

  lemma PairwiseAppend(rule: DedupRule, d: seq<NewsItem>, x: NewsItem)
    requires Pairwise(rule, d)
    requires forall y :: y in d ==> !Related(rule, y, x)
    ensures Pairwise(rule, d + [x])
  {
    var e := d + [x];
    forall i, j | 0 <= i < |e| && 0 <= j < |e| && i != j ensures !Related(rule, e[i], e[j]) {
      if i < |d| { assert e[i] in d; }
      if j < |d| { assert e[j] in d; }
    }
  }

  /** Kept items are pairwise unrelated. */
  lemma {:induction false} DedupPairwise(rule: DedupRule, s: seq<NewsItem>)
    ensures Pairwise(rule, Dedup(rule, s))
    decreases |s|
  {
    if s != [] {
      var n := |s| - 1;
      var p := s[..n];
      DedupPairwise(rule, p);
      DedupStep(rule, s);
      if FirstOfKind(rule, s, n) {
        DedupSubsequence(rule, p);
        SubsequenceMembers(Dedup(rule, p), p);
        forall y | y in Dedup(rule, p) ensures !Related(rule, y, s[n]) {
          var k :| 0 <= k < |p| && p[k] == y;
          assert s[k] == y;
        }
        PairwiseAppend(rule, Dedup(rule, p), s[n]);
      }
    }
  }

  /** The first candidate is always kept, at the front. */
  lemma {:induction false} DedupKeepsFirst(rule: DedupRule, s: seq<NewsItem>)
    requires s != []
    ensures Dedup(rule, s) != [] && Dedup(rule, s)[0] == s[0]
    decreases |s|
  {
    var n := |s| - 1;
    DedupStep(rule, s);
    if n == 0 {
      assert FirstOfKind(rule, s, 0);
    } else {
      DedupKeepsFirst(rule, s[..n]);
    }
  }

  /** Under the URL rule every URL that occurs among the candidates survives deduplication. */
  lemma DedupUrlCoverage(s: seq<NewsItem>, i: nat)
    requires i < |s|
    ensures exists x :: x in Dedup(SameUrl, s) && x.sourceUrl == s[i].sourceUrl
  {
    var k := FindIndex(SameUrl, s, s[i]);
    FindIndexFirst(SameUrl, s, k);
    DedupKeepsAllFirsts(SameUrl, s);
    assert s[k] in Dedup(SameUrl, s);
  }

  /** Of two related items only the first survives. */
  lemma DedupRelatedPair(rule: DedupRule, x: NewsItem, y: NewsItem)
    requires Related(rule, x, y)
    ensures Dedup(rule, [x, y]) == [x]
  {
    var s := [x, y];
    DedupStep(rule, s);
    assert s[..1] == [x];
    DedupKeepsFirst(rule, [x]);
    assert !FirstOfKind(rule, s, 1) by {
      assert Related(rule, s[0], s[1]);
    }
  }

  /**
   * Under the URL-or-description rule an item can be dropped although no kept item is
   * related to it: `findIndex` scans all candidates, so a chain through a dropped item
   * (same description as the first, same URL as the third) removes the third.
   */
  lemma DedupChainDrops(a: NewsItem, b: NewsItem, c: NewsItem)
    requires a.description == b.description && a.sourceUrl != b.sourceUrl
    requires b.sourceUrl == c.sourceUrl && b.description != c.description
    requires a.sourceUrl != c.sourceUrl && a.description != c.description
    ensures Dedup(SameUrlOrDescription, [a, b, c]) == [a]
    ensures !Related(SameUrlOrDescription, a, c)
  {
    var rule := SameUrlOrDescription;
    var s := [a, b, c];
    assert s[..2] == [a, b];
    assert [a, b][..1] == [a];
    assert FindIndex(rule, [a], a) == 0;
    assert Dedup(rule, [a]) == [a] by { assert [a][..0] == []; }
    assert FindIndex(rule, [a, b], b) == 0;
    assert Dedup(rule, [a, b]) == [a];
    assert FindIndex(rule, s, c) == 1 by {
      assert s[1..] == [b, c];
      assert FindIndex(rule, [b, c], c) == 0;
    }
  }

  // ---------------------------------------------------------------------------------
  // Newest-first sort

  function Date(x: NewsItem): int
    requires x.rawDate.Some?
  {
    x.rawDate.value
  }

  /** Non-increasing by instant. */
  predicate SortedByDate(s: seq<NewsItem>) {
    AllDated(s) && forall i, j :: 0 <= i < j < |s| ==> Date(s[i]) >= Date(s[j])
  }

  /** Inserts `x` before the first item that is not newer; equal dates keep `x` first, which
      makes the sort stable as `Array.prototype.sort` is. */
  function Insert(x: NewsItem, t: seq<NewsItem>): (r: seq<NewsItem>)
    requires x.rawDate.Some? && AllDated(t)
    ensures multiset(r) == multiset(t) + multiset{x}
    ensures |r| == |t| + 1 && AllDated(r)
    ensures r[0] == x || (t != [] && r[0] == t[0])
  {
    if t == [] || Date(x) >= Date(t[0]) then [x] + t
    else
      assert t == [t[0]] + t[1..];
      [t[0]] + Insert(x, t[1..])
  }

  lemma {:induction false} InsertSorted(x: NewsItem, t: seq<NewsItem>)
    requires x.rawDate.Some? && SortedByDate(t)
    ensures SortedByDate(Insert(x, t))
    decreases |t|
  {
    if t != [] && Date(x) < Date(t[0]) {
      InsertSorted(x, t[1..]);
      var u := Insert(x, t[1..]);
      assert Insert(x, t) == [t[0]] + u;
      forall y | y in u ensures y.rawDate.Some? && Date(t[0]) >= Date(y) {
        assert y in multiset(u);
        assert y in multiset(t[1..]) + multiset{x};
        if y != x {
          assert y in t[1..];
        }
      }
      SortedCons(t[0], u);
    }
  }

  /** An item no older than everything in a sorted sequence can go in front of it. */
  lemma SortedCons(a: NewsItem, u: seq<NewsItem>)
    requires a.rawDate.Some? && SortedByDate(u)
    requires forall y :: y in u ==> y.rawDate.Some? && Date(a) >= Date(y)
    ensures SortedByDate([a] + u)
  {
    var r := [a] + u;
    forall i, j | 0 <= i < j < |r| ensures Date(r[i]) >= Date(r[j]) {
      assert r[j] == u[j - 1] && r[j] in u;
      if i > 0 {
        assert r[i] == u[i - 1];
      }
    }
  }

  /** `sort((a, b) => new Date(b.rawDate) - new Date(a.rawDate))` on dated items. */
  function SortByDate(s: seq<NewsItem>): (r: seq<NewsItem>)
    requires AllDated(s)
    ensures multiset(r) == multiset(s)
    ensures |r| == |s|
    ensures SortedByDate(r)
  {
    if s == [] then []
    else
      assert s == [s[0]] + s[1..];
      var t := SortByDate(s[1..]);
      InsertSorted(s[0], t);
      Insert(s[0], t)
  }

  lemma PairwiseTail(rule: DedupRule, t: seq<NewsItem>)
    requires t != [] && Pairwise(rule, t)
    ensures Pairwise(rule, t[1..])
    ensures forall z :: z in t[1..] ==> !Related(rule, t[0], z)
  {
    var u := t[1..];
    forall i, j | 0 <= i < |u| && 0 <= j < |u| && i != j ensures !Related(rule, u[i], u[j]) {
      assert u[i] == t[i + 1] && u[j] == t[j + 1];
    }
    forall z | z in u ensures !Related(rule, t[0], z) {
      var m :| 0 <= m < |u| && u[m] == z;
      assert t[m + 1] == z;
    }
  }

  lemma PairwiseCons(rule: DedupRule, y: NewsItem, u: seq<NewsItem>)
    requires Pairwise(rule, u)
    requires forall z :: z in u ==> !Related(rule, y, z)
    ensures Pairwise(rule, [y] + u)
  {
    var r := [y] + u;
    forall i, j | 0 <= i < |r| && 0 <= j < |r| && i != j ensures !Related(rule, r[i], r[j]) {
      if i > 0 { assert r[i] == u[i - 1] && r[i] in u; }
      if j > 0 { assert r[j] == u[j - 1] && r[j] in u; }
    }
  }

  lemma {:induction false} InsertPairwise(rule: DedupRule, x: NewsItem, t: seq<NewsItem>)
    requires x.rawDate.Some? && AllDated(t)
    requires Pairwise(rule, t)
    requires forall y :: y in t ==> !Related(rule, x, y)
    ensures Pairwise(rule, Insert(x, t))
    decreases |t|
  {
    if t == [] || Date(x) >= Date(t[0]) {
      PairwiseCons(rule, x, t);
    } else {
      PairwiseTail(rule, t);
      forall y | y in t[1..] ensures !Related(rule, x, y) { assert y in t; }
      InsertPairwise(rule, x, t[1..]);
      var u := Insert(x, t[1..]);
      forall z | z in u ensures !Related(rule, t[0], z) {
        assert z in multiset(u);
        if z == x { assert t[0] in t; } else { assert z in multiset(t[1..]); }
      }
      PairwiseCons(rule, t[0], u);
    }
  }

  /** Sorting keeps a pairwise-unrelated selection pairwise unrelated. */
  lemma {:induction false} SortPairwise(rule: DedupRule, s: seq<NewsItem>)
    requires AllDated(s) && Pairwise(rule, s)
    ensures Pairwise(rule, SortByDate(s))
    decreases |s|
  {
    if s != [] {
      var t := SortByDate(s[1..]);
      PairwiseTail(rule, s);
      SortPairwise(rule, s[1..]);
      forall y | y in t ensures !Related(rule, s[0], y) {
        assert y in multiset(s[1..]);
      }
      InsertPairwise(rule, s[0], t);
    }
  }

  // ---------------------------------------------------------------------------------
  // The cached snapshot

  /** `s.sort(newest first).slice(0, cap)`: exactly `min(cap, |s|)` items, the first ones of
      the sorted list, which `NewestKeepsNewest` shows to be the newest. */
  function Newest(s: seq<NewsItem>, cap: nat): (r: seq<NewsItem>)
    requires AllDated(s)
    ensures |r| == if |s| <= cap then |s| else cap
    ensures SortedByDate(r)
    ensures multiset(r) <= multiset(s)
    ensures r == SortByDate(s)[..|r|]
  {
    var sorted := SortByDate(s);
    var r := Take(sorted, cap);
    assert forall i :: 0 <= i < |r| ==> r[i] == sorted[i];
    assert sorted == r + sorted[|r|..];
    r
  }

  /** The cut drops nothing newer than what it keeps: an item left out is no newer than any
      kept item, so the kept ones are the `cap` newest. */
  lemma NewestKeepsNewest(s: seq<NewsItem>, cap: nat, i: nat, y: NewsItem)
    requires AllDated(s)
    requires i < |Newest(s, cap)| && y in s && y !in Newest(s, cap)
    ensures y.rawDate.Some? && Date(Newest(s, cap)[i]) >= Date(y)
  {
    var sorted := SortByDate(s);
    var r := Newest(s, cap);
    assert y in multiset(sorted);
    var k :| 0 <= k < |sorted| && sorted[k] == y;
    assert sorted[i] == r[i];
  }

  /** `dedup(s).sort(newest first).slice(0, cap)`. */
  function Snapshot(rule: DedupRule, s: seq<NewsItem>, cap: nat): (r: seq<NewsItem>)
    requires AllDated(s)
    ensures |r| <= cap && |r| <= |s|
    ensures |r| == if |Dedup(rule, s)| <= cap then |Dedup(rule, s)| else cap
    ensures SortedByDate(r)
  {
    Newest(Dedup(rule, s), cap)
  }

  lemma SnapshotPrefix(rule: DedupRule, s: seq<NewsItem>, cap: nat)
    requires AllDated(s)
    ensures var sorted := SortByDate(Dedup(rule, s));
      Snapshot(rule, s, cap) == sorted[..|Snapshot(rule, s, cap)|]
      && multiset(Snapshot(rule, s, cap)) <= multiset(Dedup(rule, s))
  {
    var sorted := SortByDate(Dedup(rule, s));
    var r := Snapshot(rule, s, cap);
    assert sorted == r + sorted[|r|..];
  }

  /** Cached items are pairwise unrelated. */
  lemma SnapshotPairwise(rule: DedupRule, s: seq<NewsItem>, cap: nat)
    requires AllDated(s)
    ensures Pairwise(rule, Snapshot(rule, s, cap))
  {
    var d := Dedup(rule, s);
    DedupPairwise(rule, s);
    SortPairwise(rule, d);
    SnapshotPrefix(rule, s, cap);
  }

  /** Every cached item is a candidate, the first of its kind there, and no candidate is cached
      more often than it occurs. */
  lemma SnapshotFirstSeen(rule: DedupRule, s: seq<NewsItem>, cap: nat)
    requires AllDated(s)
    ensures multiset(Snapshot(rule, s, cap)) <= multiset(s)
    ensures forall x :: x in Snapshot(rule, s, cap) ==> KeptFrom(rule, s, x)
  {
    var d := Dedup(rule, s);
    DedupSubsequence(rule, s);
    SubsequenceMembers(d, s);
    DedupKeepsFirstOfKind(rule, s);
    SnapshotPrefix(rule, s, cap);
    forall x | x in Snapshot(rule, s, cap) ensures KeptFrom(rule, s, x) {
      assert x in multiset(d);
    }
  }

  /** The cut drops nothing newer than what it keeps. */
  lemma SnapshotKeepsNewest(rule: DedupRule, s: seq<NewsItem>, cap: nat, i: nat, y: NewsItem)
    requires AllDated(s)
    requires i < |Snapshot(rule, s, cap)| && y in Dedup(rule, s) && y !in Snapshot(rule, s, cap)
    ensures y.rawDate.Some? && Date(Snapshot(rule, s, cap)[i]) >= Date(y)
  {
    NewestKeepsNewest(Dedup(rule, s), cap, i, y);
  }

  /** When deduplication leaves no more than `cap` items, the first candidate is cached. */
  lemma SnapshotKeepsFirst(rule: DedupRule, s: seq<NewsItem>, cap: nat)
    requires AllDated(s) && s != [] && |Dedup(rule, s)| <= cap
    ensures s[0] in Snapshot(rule, s, cap)
  {
    DedupKeepsFirst(rule, s);
    var sorted := SortByDate(Dedup(rule, s));
    assert s[0] in multiset(sorted);
    assert Snapshot(rule, s, cap) == sorted;
  }

  // ---------------------------------------------------------------------------------
  // Dropping rejected entries

  /** The accepted results in order: what `if (post) posts.push(post)` collects. */
  function Present<T>(s: seq<Option<T>>): (r: seq<T>)
    ensures |r| <= |s|
    decreases |s|
  {
    if s == [] then []
    else Present(s[..|s| - 1]) + (if s[|s| - 1].Some? then [s[|s| - 1].value] else [])
  }

  lemma PresentStep<T>(s: seq<Option<T>>, i: nat)
    requires i < |s|
    ensures Present(s[..i + 1]) == Present(s[..i]) + (if s[i].Some? then [s[i].value] else [])
  {
    assert s[..i + 1][..i] == s[..i];
  }

  /** Exactly the accepted values are collected. */
  lemma {:induction false} PresentMembers<T>(s: seq<Option<T>>)
    ensures forall x :: x in Present(s) <==> Some(x) in s
    decreases |s|
  {
    if s != [] {
      var n := |s| - 1;
      PresentMembers(s[..n]);
      assert s == s[..n] + [s[n]];
    }
  }

  /** When every result is accepted, every one is collected. */
  lemma {:induction false} PresentAll<T>(s: seq<Option<T>>)
    requires forall i :: 0 <= i < |s| ==> s[i].Some?
    ensures |Present(s)| == |s|
    decreases |s|
  {
    if s != [] {
      PresentAll(s[..|s| - 1]);
    }
  }

  /** Collecting accepted items that all carry a date gives dated items. */
  lemma {:induction false} PresentDated(s: seq<Option<NewsItem>>)
    requires forall i :: 0 <= i < |s| && s[i].Some? ==> s[i].value.rawDate.Some?
    ensures AllDated(Present(s))
    decreases |s|
  {
    if s != [] {
      PresentDated(s[..|s| - 1]);
    }
  }

  lemma DatedAppend(a: seq<NewsItem>, b: seq<NewsItem>)
    requires AllDated(a) && AllDated(b)
    ensures AllDated(a + b)
  {
    assert forall i :: |a| <= i < |a + b| ==> (a + b)[i] == b[i - |a|];
  }

  // ---------------------------------------------------------------------------------
  // Statistics

  /** A counter object `{ name: count }` in the order its keys were first set. */
  type Tally = seq<(string, nat)>

  /** `stats[key] = (stats[key] || 0) + 1`. */
  function Bump(t: Tally, key: string): (r: Tally)
    ensures |r| == if key in Names(t) then |t| else |t| + 1
  {
    if t == [] then [(key, 1)]
    else if t[0].0 == key then [(key, t[0].1 + 1)] + t[1..]
    else [t[0]] + Bump(t[1..], key)
  }

  /** The counters after visiting `keys` in order. */
  function TallyOf(keys: seq<string>): Tally {
    if keys == [] then [] else Bump(TallyOf(keys[..|keys| - 1]), keys[|keys| - 1])
  }

  /** `Object.keys(stats)`. */
  function Names(t: Tally): (r: seq<string>)
    ensures |r| == |t|
  {
    if t == [] then [] else [t[0].0] + Names(t[1..])
  }

  /** The value stored under `key`, 0 when absent. */
  function Lookup(t: Tally, key: string): nat {
    if t == [] then 0 else if t[0].0 == key then t[0].1 else Lookup(t[1..], key)
  }

  /** The sum of all counters. */
  function Total(t: Tally): nat {
    if t == [] then 0 else t[0].1 + Total(t[1..])
  }

  /** How often `key` occurs in `keys`: at most their number, and 0 exactly when absent. */
  function Occurrences(keys: seq<string>, key: string): (n: nat)
    ensures n <= |keys|
    ensures n == 0 <==> key !in keys
  {
    if keys == [] then 0
    else
      var p := keys[..|keys| - 1];
      assert keys == p + [keys[|keys| - 1]];
      Occurrences(p, key) + (if keys[|keys| - 1] == key then 1 else 0)
  }

  predicate DistinctNames(t: Tally) {
    t == [] || (t[0].0 !in Names(t[1..]) && DistinctNames(t[1..]))
  }

  lemma {:induction false} BumpSpec(t: Tally, key: string)
    requires DistinctNames(t)
    ensures DistinctNames(Bump(t, key))
    ensures Total(Bump(t, key)) == Total(t) + 1
    ensures forall k :: Lookup(Bump(t, key), k) == Lookup(t, k) + (if k == key then 1 else 0)
    ensures forall k :: k in Names(Bump(t, key)) <==> k == key || k in Names(t)
    decreases |t|
  {
    if t != [] && t[0].0 != key {
      BumpSpec(t[1..], key);
    }
  }

  /**
   * The counters after visiting `keys`: one entry per distinct key, each holding the number
   * of times its key occurs, and all of them together summing to the number of visits.
   */
  lemma {:induction false} TallyOfSpec(keys: seq<string>)
    ensures DistinctNames(TallyOf(keys))
    ensures Total(TallyOf(keys)) == |keys|
    ensures forall k :: Lookup(TallyOf(keys), k) == Occurrences(keys, k)
    ensures forall k :: k in Names(TallyOf(keys)) <==> k in keys
    decreases |keys|
  {
    if keys != [] {
      var p := keys[..|keys| - 1];
      TallyOfSpec(p);
      BumpSpec(TallyOf(p), keys[|keys| - 1]);
      assert keys == p + [keys[|keys| - 1]];
    }
  }

  /** Which property of an item a counter groups by. */
  datatype StatKey = BySourceName | ByCategory

  function KeyOf(sel: StatKey, x: NewsItem): string {
    match sel
    case BySourceName => x.source.name
    case ByCategory => x.category
  }

  function Keys(sel: StatKey, s: seq<NewsItem>): (r: seq<string>)
    ensures |r| == |s| && forall i :: 0 <= i < |s| ==> r[i] == KeyOf(sel, s[i])
  {
    seq(|s|, i requires 0 <= i < |s| => KeyOf(sel, s[i]))
  }

  /** `s.forEach(item => stats[key(item)] = (stats[key(item)] || 0) + 1)`. */
  method CountBy(sel: StatKey, s: seq<NewsItem>) returns (t: Tally)
    ensures t == TallyOf(Keys(sel, s))
  {
    t := [];
    var i := 0;
    while i < |s|
      invariant 0 <= i <= |s|
      invariant t == TallyOf(Keys(sel, s[..i]))
    {
      assert Keys(sel, s[..i + 1])[..i] == Keys(sel, s[..i]);
      t := Bump(t, KeyOf(sel, s[i]));
      i := i + 1;
    }
    assert s[..|s|] == s;
  }

  /** `s.filter(item => item.imageUrl).length`. */
  function WithImages(s: seq<NewsItem>): (n: nat)
    ensures n <= |s|
    ensures n == |s| <==> forall i :: 0 <= i < |s| ==> s[i].imageUrl.Some?
  {
    if s == [] then 0 else (if s[0].imageUrl.Some? then 1 else 0) + WithImages(s[1..])
  }

  /** The object `getCachedNews()` of the Telegram parsers returns. */
  datatype CachedNews = CachedNews(data: seq<NewsItem>, total: nat, lastUpdated: Option<int>, source: string)

  /** The object `getStats()` of the Telegram parsers returns. */
  datatype Stats = Stats(total: nat, channels: Tally, lastUpdated: Option<int>, withImages: nat)
}
