/** Counting and ranking, the shape every frequency analyzer of the scan shares: tally keys
    in a hash map, sort by count and then key, cut off after k. */
module Ranking {
  import opened Seqs
  import opened Text

  datatype Entry = Entry(key: string, count: nat)

  /** More first; ties by key. */
  predicate Before(a: Entry, b: Entry) {
    a.count > b.count || (a.count == b.count && Less(a.key, b.key))
  }

  lemma BeforeIsTotal(a: Entry, b: Entry)
    ensures a.key != b.key ==> Before(a, b) || Before(b, a)
    ensures !(Before(a, b) && Before(b, a)) && !Before(a, a)
  {
    LessIsTotal(a.key, b.key);
    LessIsIrreflexive(a.key);
  }

  lemma BeforeIsTransitive(a: Entry, b: Entry, c: Entry)
    requires Before(a, b) && Before(b, c)
    ensures Before(a, c)
  {
    if a.count == b.count == c.count { LessIsTransitive(a.key, b.key, c.key); }
  }

  // ----- Tallies -----

  /** How often each key occurs. */
  function Tally(keys: seq<string>): map<string, nat> {
    if keys == [] then map[] else Bumped(Tally(keys[..|keys| - 1]), keys[|keys| - 1])
  }

  /** The effect of `*counts.entry(key).or_default() += 1`. */
  function Bumped(counts: map<string, nat>, key: string): map<string, nat> {
    counts[key := (if key in counts then counts[key] else 0) + 1]
  }

  lemma TallySnoc(keys: seq<string>, key: string)
    ensures Tally(keys + [key]) == Bumped(Tally(keys), key)
  {
    assert (keys + [key])[..|keys|] == keys;
  }

  lemma {:induction false} TallyCounts(keys: seq<string>)
    ensures forall k :: k in Tally(keys) <==> k in keys
    ensures forall k :: k in Tally(keys) ==> Tally(keys)[k] == multiset(keys)[k] > 0
  {
    if keys != [] {
      TallyCounts(keys[..|keys| - 1]);
      assert keys == keys[..|keys| - 1] + [keys[|keys| - 1]];
    }
  }

  /** The counts depend on the items, not on their order. */
  lemma TallyIgnoresOrder(a: seq<string>, b: seq<string>)
    requires multiset(a) == multiset(b)
    ensures Tally(a) == Tally(b)
  {
    TallyCounts(a);
    TallyCounts(b);
    forall k ensures k in a <==> k in b {
      assert k in multiset(a) <==> k in a;
      assert k in multiset(b) <==> k in b;
    }
    assert Tally(a).Keys == Tally(b).Keys;
  }

  // ----- The top k -----

  ghost predicate Sorted(r: seq<Entry>) { forall i, j :: 0 <= i < j < |r| ==> Before(r[i], r[j]) }

  ghost predicate FromCounts(r: seq<Entry>, counts: map<string, nat>) {
    forall e :: e in r ==> e.key in counts && e.count == counts[e.key]
  }

  /** `r` is the k first entries of `counts` in ranking order, or all of them if fewer. */
  ghost predicate IsTop(r: seq<Entry>, counts: map<string, nat>, k: nat) {
    && Sorted(r) && FromCounts(r, counts)
    && |r| == (if |counts| < k then |counts| else k)
    && (forall key, e :: key in counts && Entry(key, counts[key]) !in r && e in r ==> Before(e, Entry(key, counts[key])))
  }

  /** There is one such ranking, so the hash map's iteration order cannot show. */
  lemma TopIsUnique(a: seq<Entry>, b: seq<Entry>, counts: map<string, nat>, k: nat)
    requires IsTop(a, counts, k) && IsTop(b, counts, k)
    ensures a == b
  {
    if a != b {
      var i := FirstDifference(a, b);
      NotEarlier(a, b, counts, k, i);
      NotEarlier(b, a, counts, k, i);
      assert a[i] in a && b[i] in b;
      BeforeIsTotal(a[i], b[i]);
    }
  }

  lemma FirstDifference(a: seq<Entry>, b: seq<Entry>) returns (i: nat)
    requires |a| == |b| && a != b
    ensures i < |a| && a[i] != b[i] && a[..i] == b[..i]
  {
    i := 0;
    while a[i] == b[i]
      invariant i < |a| && a[..i] == b[..i]
      invariant exists j :: i <= j < |a| && a[j] != b[j]
      decreases |a| - i
    {
      i := i + 1;
    }
  }

  /** Where two rankings part, neither entry can come before the other. */
  lemma NotEarlier(a: seq<Entry>, b: seq<Entry>, counts: map<string, nat>, k: nat, i: nat)
    requires IsTop(a, counts, k) && IsTop(b, counts, k) && i < |a| && a[..i] == b[..i]
    ensures !Before(a[i], b[i])
  {
    var x, y := a[i], b[i];
    assert x in a && y in b;
    assert x == Entry(x.key, counts[x.key]);
    BeforeIsTotal(x, y);
    BeforeIsTotal(x, x);
    if x in b {
      var j :| 0 <= j < |b| && b[j] == x;
      if j < i {
        assert a[..i][j] == b[..i][j];
      }
    }
  }

  // ----- The ranking said without the comparator -----

  /** At the first place where they differ `a` has the smaller character, or `a` ends there. */
  ghost predicate KeyFirst(a: string, b: string) {
    exists n :: 0 <= n <= |a| && n < |b| && a[..n] == b[..n] && (n == |a| || a[n] < b[n])
  }

  lemma {:induction false} LessIsKeyFirst(a: string, b: string)
    ensures Less(a, b) <==> KeyFirst(a, b)
  {
    if a != [] && b != [] {
      LessIsKeyFirst(a[1..], b[1..]);
      if a[0] == b[0] && KeyFirst(a[1..], b[1..]) {
        var n :| 0 <= n <= |a[1..]| && n < |b[1..]| && a[1..][..n] == b[1..][..n] && (n == |a[1..]| || a[1..][n] < b[1..][n]);
        assert a[..n + 1] == [a[0]] + a[1..][..n] && b[..n + 1] == [b[0]] + b[1..][..n];
      }
      if KeyFirst(a, b) && !(a[0] < b[0]) {
        var n :| 0 <= n <= |a| && n < |b| && a[..n] == b[..n] && (n == |a| || a[n] < b[n]);
        assert n > 0;
        assert a[0] == a[..n][0] && b[0] == b[..n][0];
        assert a[1..][..n - 1] == a[..n][1..] && b[1..][..n - 1] == b[..n][1..];
      }
      if a[0] < b[0] { assert a[..0] == b[..0]; }
    } else if b != [] {
      assert a[..0] == b[..0];
    }
  }

  /** Higher counts first, equal counts by key; and whatever is cut off counts no more than
      anything ranked, equal counts again by key. */
  ghost predicate Ranked(r: seq<Entry>, counts: map<string, nat>, k: nat) {
    && |r| == (if |counts| < k then |counts| else k)
    && (forall i :: 0 <= i < |r| ==> r[i].key in counts && r[i].count == counts[r[i].key])
    && (forall i, j :: 0 <= i < j < |r| ==> r[i].count >= r[j].count)
    && (forall i, j :: 0 <= i < j < |r| && r[i].count == r[j].count ==> KeyFirst(r[i].key, r[j].key))
    && (forall key, i :: key in counts && Entry(key, counts[key]) !in r && 0 <= i < |r| ==> counts[key] <= r[i].count)
    && (forall key, i :: key in counts && Entry(key, counts[key]) !in r && 0 <= i < |r| && counts[key] == r[i].count ==>
          KeyFirst(r[i].key, key))
  }

  lemma TopIsRanked(r: seq<Entry>, counts: map<string, nat>, k: nat)
    requires IsTop(r, counts, k)
    ensures Ranked(r, counts, k)
  {
    hide Less, KeyFirst;
    forall a, b ensures Less(a, b) <==> KeyFirst(a, b) { LessIsKeyFirst(a, b); }
    forall i | 0 <= i < |r| ensures r[i] in r {}
  }

  // ----- Sorting -----

  function Inserted(e: Entry, r: seq<Entry>): seq<Entry> {
    if r == [] then [e]
    else if Before(e, r[0]) then [e] + r
    else [r[0]] + Inserted(e, r[1..])
  }

  lemma {:induction false} InsertedSorts(e: Entry, r: seq<Entry>)
    requires Sorted(r) && forall x :: x in r ==> x.key != e.key
    ensures Sorted(Inserted(e, r)) && |Inserted(e, r)| == |r| + 1
    ensures forall x :: x in Inserted(e, r) ==> x == e || x in r
    ensures forall x :: x == e || x in r ==> x in Inserted(e, r)
  {
    if r != [] {
      BeforeIsTotal(e, r[0]);
      if Before(e, r[0]) {
        forall j | 0 <= j < |r| ensures Before(e, r[j]) {
          if j > 0 { BeforeIsTransitive(e, r[0], r[j]); }
        }
      } else {
        InsertedSorts(e, r[1..]);
        var s := Inserted(e, r[1..]);
        forall j | 0 <= j < |s| ensures Before(r[0], s[j]) {
          assert s[j] in s;
          if s[j] != e {
            var i :| 0 <= i < |r[1..]| && r[1..][i] == s[j];
            assert Before(r[0], r[i + 1]);
          }
        }
      }
    }
  }

  /** Sorts the entries of a hash map, met in whatever order it yields them, and cuts off. */
  method Rank(counts: map<string, nat>, k: nat) returns (r: seq<Entry>)
    ensures IsTop(r, counts, k) && Ranked(r, counts, k)
  {
    hide Ranked;
    var rest := counts.Keys;
    var sorted: seq<Entry> := [];
    while rest != {}
      invariant rest <= counts.Keys
      invariant Sorted(sorted) && FromCounts(sorted, counts)
      invariant forall e :: e in sorted ==> e.key !in rest
      invariant forall key :: key in counts && key !in rest ==> Entry(key, counts[key]) in sorted
      invariant |sorted| + |rest| == |counts|
      decreases |rest|
    {
      var key :| key in rest;
      var e := Entry(key, counts[key]);
      InsertedSorts(e, sorted);
      assert e.key in counts && e.count == counts[e.key];
      sorted := Inserted(e, sorted);
      rest := rest - {key};
    }
    r := if |sorted| > k then sorted[..k] else sorted;
    CutIsTop(sorted, r, counts, k);
    TopIsRanked(r, counts, k);
  }

  lemma CutIsTop(sorted: seq<Entry>, r: seq<Entry>, counts: map<string, nat>, k: nat)
    requires Sorted(sorted) && FromCounts(sorted, counts) && |sorted| == |counts|
    requires forall key :: key in counts ==> Entry(key, counts[key]) in sorted
    requires r == if |sorted| > k then sorted[..k] else sorted
    ensures IsTop(r, counts, k)
  {
    forall e | e in r ensures e in sorted {}
    forall key, e | key in counts && Entry(key, counts[key]) !in r && e in r
      ensures Before(e, Entry(key, counts[key])) {
      var x := Entry(key, counts[key]);
      var j :| 0 <= j < |sorted| && sorted[j] == x;
      var i :| 0 <= i < |r| && r[i] == e;
      assert sorted[i] == e;
      assert forall m :: 0 <= m < |r| ==> r[m] == sorted[m] && r[m] in r;
    }
  }

  // ----- Sums -----

  function Keys(r: seq<Entry>): seq<string> { seq(|r|, i requires 0 <= i < |r| => r[i].key) }

  function Sum(r: seq<Entry>): nat { if r == [] then 0 else Sum(r[..|r| - 1]) + r[|r| - 1].count }

  lemma SortedKeysAreDistinct(r: seq<Entry>, counts: map<string, nat>)
    requires Sorted(r) && FromCounts(r, counts)
    ensures Distinct(Keys(r))
  {
    forall i, j | 0 <= i < j < |r| ensures r[i].key != r[j].key {
      assert r[i] in r && r[j] in r;
      BeforeIsTotal(r[i], r[j]);
    }
  }

  /** The occurrences of the listed keys. */
  function Occurrences(listed: seq<string>, items: multiset<string>): nat {
    if listed == [] then 0
    else Occurrences(listed[..|listed| - 1], items) + items[listed[|listed| - 1]]
  }

  lemma {:induction false} OneMoreOccurrence(listed: seq<string>, items: multiset<string>, x: string)
    requires Distinct(listed)
    ensures Occurrences(listed, items + multiset{x}) == Occurrences(listed, items) + (if x in listed then 1 else 0)
  {
    if listed != [] {
      var front, last := listed[..|listed| - 1], listed[|listed| - 1];
      OneMoreOccurrence(front, items, x);
      assert listed == front + [last];
    }
  }

  lemma {:induction false} SumIsOccurrences(r: seq<Entry>, items: multiset<string>)
    requires forall e :: e in r ==> e.count == items[e.key]
    ensures Sum(r) == Occurrences(Keys(r), items)
  {
    if r != [] {
      SumIsOccurrences(r[..|r| - 1], items);
      assert Keys(r)[..|r| - 1] == Keys(r[..|r| - 1]);
    }
  }

  lemma {:induction false} OccurrencesCount(listed: seq<string>, items: seq<string>)
    requires Distinct(listed)
    ensures Occurrences(listed, multiset(items)) == |Select(items, Listed(listed))|
  {
    if items == [] {
      NoOccurrences(listed);
    } else {
      var front, last := items[..|items| - 1], items[|items| - 1];
      assert items == front + [last];
      OccurrencesCount(listed, front);
      OneMoreOccurrence(listed, multiset(front), last);
      assert multiset(items) == multiset(front) + multiset{last};
    }
  }

  lemma {:induction false} NoOccurrences(listed: seq<string>)
    ensures Occurrences(listed, multiset{}) == 0
  {
    if listed != [] { NoOccurrences(listed[..|listed| - 1]); }
  }

  function Listed(listed: seq<string>): string -> bool { (x: string) => x in listed }

  /** The counts of a ranking add up to the items whose key made it; when nothing is cut
      off, to all the items. */
  lemma RankingSums(r: seq<Entry>, items: seq<string>, k: nat)
    requires IsTop(r, Tally(items), k)
    ensures Sum(r) == |Select(items, Listed(Keys(r)))|
    ensures |Tally(items)| <= k ==> Sum(r) == |items|
  {
    TallyCounts(items);
    SortedKeysAreDistinct(r, Tally(items));
    SumIsOccurrences(r, multiset(items));
    OccurrencesCount(Keys(r), items);
    if |Tally(items)| <= k {
      AllKeysRanked(r, Tally(items), k);
      forall x | x in items ensures x in Keys(r) {}
      SelectAll(items, Listed(Keys(r)));
    }
  }

  lemma AllKeysRanked(r: seq<Entry>, counts: map<string, nat>, k: nat)
    requires IsTop(r, counts, k) && |counts| <= k
    ensures forall key :: key in counts ==> key in Keys(r)
  {
    SortedKeysAreDistinct(r, counts);
    var ranked := SetOf(Keys(r));
    DistinctCardinality(Keys(r));
    forall key | key in ranked ensures key in counts {
      var i :| 0 <= i < |r| && Keys(r)[i] == key;
      assert r[i] in r;
    }
    SubsetOfSameSize(ranked, counts.Keys);
  }

  function SetOf(s: seq<string>): set<string> { set x | x in s }

  lemma {:induction false} DistinctCardinality(s: seq<string>)
    requires Distinct(s)
    ensures |SetOf(s)| == |s|
  {
    if s != [] {
      DistinctCardinality(s[..|s| - 1]);
      assert s == s[..|s| - 1] + [s[|s| - 1]];
      assert SetOf(s) == SetOf(s[..|s| - 1]) + {s[|s| - 1]};
    }
  }

  lemma SubsetOfSameSize(a: set<string>, b: set<string>)
    requires a <= b && |a| == |b|
    ensures a == b
  {
    assert |b - a| == |b| - |a|;
  }
}
