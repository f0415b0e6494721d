/** Sequences without duplicates and selections from a sequence. */
module Seqs {

  datatype Option<+T> = None | Some(value: T)

  ghost predicate Distinct<T>(s: seq<T>) {
    forall i, j :: 0 <= i < j < |s| ==> s[i] != s[j]
  }

  /** `s` without its later repetitions, in order of first occurrence. */
  function Dedup<T(==)>(s: seq<T>): seq<T> {
    if s == [] then []
    else
      var r := Dedup(s[..|s| - 1]);
      if s[|s| - 1] in r then r else r + [s[|s| - 1]]
  }

  lemma {:induction false} DedupMembers<T>(s: seq<T>)
    ensures Distinct(Dedup(s))
    ensures forall x :: x in Dedup(s) ==> x in s
    ensures forall x :: x in s ==> x in Dedup(s)
  {
    if s != [] {
      var front, last := s[..|s| - 1], s[|s| - 1];
      DedupMembers(front);
      assert s == front + [last];
    }
  }

  /** The first index of `x` in `s`, or the length of `s` when it is absent. */
  function IndexOf<T(==)>(s: seq<T>, x: T): (i: nat)
    ensures i <= |s|
    ensures i < |s| ==> s[i] == x
    ensures x !in s[..i]
    ensures i < |s| <==> x in s
  {
    if s == [] then 0
    else if s[0] == x then 0
    else
      assert forall j: nat :: j < |s| - 1 ==> s[..j + 1] == [s[0]] + s[1..][..j];
      1 + IndexOf(s[1..], x)
  }

  /** The order kept is the order of first occurrence. */
  lemma {:induction false} DedupKeepsFirstOccurrences<T>(s: seq<T>, i: nat, j: nat)
    requires i < j < |Dedup(s)|
    ensures IndexOf(s, Dedup(s)[i]) < IndexOf(s, Dedup(s)[j]) < |s|
  {
    var front, last := s[..|s| - 1], s[|s| - 1];
    var r := Dedup(front);
    DedupMembers(front);
    assert s == front + [last];
    assert r[i] in r;
    IndexOfFront(front, last, r[i]);
    if j < |r| {
      assert r[j] in r;
      DedupKeepsFirstOccurrences(front, i, j);
      IndexOfFront(front, last, r[j]);
    }
  }

  lemma {:induction false} IndexOfUnique<T>(s: seq<T>, x: T, i: nat)
    requires i < |s| && s[i] == x && x !in s[..i]
    ensures IndexOf(s, x) == i
  {
    if i > 0 {
      assert s[0] in s[..i];
      assert s[..i] == [s[0]] + s[1..][..i - 1];
      IndexOfUnique(s[1..], x, i - 1);
    }
  }

  lemma IndexOfFront<T>(front: seq<T>, last: T, x: T)
    requires x in front
    ensures IndexOf(front + [last], x) == IndexOf(front, x)
  {
    var i := IndexOf(front, x);
    assert (front + [last])[..i] == front[..i];
    IndexOfUnique(front + [last], x, i);
  }

  /** A sequence without duplicates is its own deduplication. */
  lemma {:induction false} DedupOfDistinct<T>(s: seq<T>)
    requires Distinct(s)
    ensures Dedup(s) == s
  {
    if s != [] {
      DedupOfDistinct(s[..|s| - 1]);
      assert s == s[..|s| - 1] + [s[|s| - 1]];
    }
  }

  /** One more element. */
  lemma DedupSnoc<T>(s: seq<T>, x: T)
    ensures Dedup(s + [x]) == if x in Dedup(s) then Dedup(s) else Dedup(s) + [x]
  {
    assert (s + [x])[..|s|] == s;
  }

  /** The elements of `s` that satisfy `keep`, in order. */
  function Select<T>(s: seq<T>, keep: T -> bool): seq<T> {
    if s == [] then []
    else
      var r := Select(s[..|s| - 1], keep);
      if keep(s[|s| - 1]) then r + [s[|s| - 1]] else r
  }

  lemma SelectSnoc<T>(s: seq<T>, x: T, keep: T -> bool)
    ensures Select(s + [x], keep) == if keep(x) then Select(s, keep) + [x] else Select(s, keep)
  {
    assert (s + [x])[..|s|] == s;
  }

  lemma {:induction false} SelectMembers<T>(s: seq<T>, keep: T -> bool)
    ensures forall x :: x in Select(s, keep) ==> x in s && keep(x)
    ensures forall x :: x in s && keep(x) ==> x in Select(s, keep)
    ensures |Select(s, keep)| <= |s|
    ensures Distinct(s) ==> Distinct(Select(s, keep))
  {
    if s != [] {
      SelectMembers(s[..|s| - 1], keep);
      assert s == s[..|s| - 1] + [s[|s| - 1]];
    }
  }

  lemma {:induction false} SelectAppend<T>(a: seq<T>, b: seq<T>, keep: T -> bool)
    ensures Select(a + b, keep) == Select(a, keep) + Select(b, keep)
  {
    if b == [] {
      assert a + b == a;
    } else {
      var front, last := b[..|b| - 1], b[|b| - 1];
      SelectAppend(a, front, keep);
      assert a + b == (a + front) + [last];
      SelectSnoc(a + front, last, keep);
    }
  }

  lemma {:induction false} SelectAll<T>(s: seq<T>, keep: T -> bool)
    requires forall x :: x in s ==> keep(x)
    ensures Select(s, keep) == s
  {
    if s != [] {
      SelectAll(s[..|s| - 1], keep);
      assert s == s[..|s| - 1] + [s[|s| - 1]];
    }
  }

  lemma {:induction false} SelectNone<T>(s: seq<T>, keep: T -> bool)
    requires forall x :: x in s ==> !keep(x)
    ensures Select(s, keep) == []
  {
    if s != [] {
      SelectNone(s[..|s| - 1], keep);
      assert s == s[..|s| - 1] + [s[|s| - 1]];
    }
  }

  lemma {:induction false} SelectInOrder<T>(s: seq<T>, keep: T -> bool, i: nat, j: nat)
    requires i < j < |Select(s, keep)|
    ensures exists a, b :: 0 <= a < b < |s| && s[a] == Select(s, keep)[i] && s[b] == Select(s, keep)[j]
  {
    var n := |s| - 1;
    var front := Select(s[..n], keep);
    if j < |front| {
      SelectInOrder(s[..n], keep, i, j);
      var a, b :| 0 <= a < b < n && s[..n][a] == front[i] && s[..n][b] == front[j];
      assert s[a] == Select(s, keep)[i] && s[b] == Select(s, keep)[j];
    } else {
      SelectMembers(s[..n], keep);
      assert front[i] in front;
      var a :| 0 <= a < n && s[..n][a] == front[i];
      assert s[a] == Select(s, keep)[i] && s[n] == Select(s, keep)[j];
    }
  }

  lemma NotBefore<T>(front: seq<T>, last: T, x: T)
    requires x !in front
    ensures IndexOf(front + [last], x) >= |front|
  {
    assert forall j :: 0 <= j < |front| ==> (front + [last])[j] == front[j] && front[j] in front;
  }

  // ----- Lists gathered from the elements -----

  /** What `f` finds in each element, in order. */
  function Gathered<T, U>(s: seq<T>, f: T -> seq<U>): seq<U> {
    if s == [] then [] else Gathered(s[..|s| - 1], f) + f(s[|s| - 1])
  }

  lemma GatheredSnoc<T, U>(s: seq<T>, x: T, f: T -> seq<U>)
    ensures Gathered(s + [x], f) == Gathered(s, f) + f(x)
  {
    assert (s + [x])[..|s|] == s;
  }

  lemma {:induction false} GatheredAppend<T, U>(a: seq<T>, b: seq<T>, f: T -> seq<U>)
    ensures Gathered(a + b, f) == Gathered(a, f) + Gathered(b, f)
  {
    hide Gathered;
    if b == [] {
      assert a + b == a;
      GatheredNone(f);
    } else {
      var front, last := b[..|b| - 1], b[|b| - 1];
      GatheredAppend(a, front, f);
      assert b == front + [last] && a + b == (a + front) + [last];
      GatheredSnoc(front, last, f);
      GatheredSnoc(a + front, last, f);
    }
  }

  lemma GatheredNone<T, U>(f: T -> seq<U>)
    ensures Gathered([], f) == []
  {
  }

  function Without<T>(s: seq<T>, i: nat): (r: seq<T>)
    requires i < |s|
    ensures |r| == |s| - 1
  {
    s[..i] + s[i + 1..]
  }

  lemma WithoutOne<T>(s: seq<T>, i: nat)
    requires i < |s|
    ensures multiset(s) == multiset(Without(s, i)) + multiset{s[i]}
  {
    assert s == (s[..i] + [s[i]]) + s[i + 1..];
  }

  lemma GatheredWithoutOne<T, U>(s: seq<T>, i: nat, f: T -> seq<U>)
    requires i < |s|
    ensures multiset(Gathered(s, f)) == multiset(Gathered(Without(s, i), f)) + multiset(f(s[i]))
  {
    hide Gathered;
    var front, back := s[..i], s[i + 1..];
    assert s == (front + [s[i]]) + back;
    GatheredAppend(front + [s[i]], back, f);
    GatheredSnoc(front, s[i], f);
    GatheredAppend(front, back, f);
    TakingOut(Gathered(front, f), f(s[i]), Gathered(back, f));
  }

  lemma TakingOut<U>(x: seq<U>, y: seq<U>, z: seq<U>)
    ensures multiset((x + y) + z) == multiset(x + z) + multiset(y)
  {
  }

  /** Reordering the elements reorders what is gathered. */
  lemma {:induction false} GatheredPermutation<T, U>(a: seq<T>, b: seq<T>, f: T -> seq<U>)
    requires multiset(a) == multiset(b)
    ensures multiset(Gathered(a, f)) == multiset(Gathered(b, f))
    decreases |a|
  {
    hide Gathered, Without;
    assert |multiset(a)| == |a| && |multiset(b)| == |b|;
    if a != [] {
      assert a[0] in multiset(b);
      var i :| 0 <= i < |b| && b[i] == a[0];
      WithoutOne(a, 0);
      WithoutOne(b, i);
      assert multiset(Without(a, 0)) == multiset(a) - multiset{a[0]} == multiset(Without(b, i));
      GatheredWithoutOne(a, 0, f);
      GatheredWithoutOne(b, i, f);
      GatheredPermutation(Without(a, 0), Without(b, i), f);
    } else {
      assert a == b;
    }
  }
}
