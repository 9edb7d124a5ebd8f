/** Python's ordering of strings (lexicographic by code point, a proper prefix first) and
    sorted(xs, key=...) as a stable insertion sort. */
module Ordering {

  /** a < b on Python strings. */
  predicate Less(a: string, b: string)
    ensures Less(a, b) ==> a != b && b != []
  {
    if a == [] then b != []
    else if b == [] then false
    else if a[0] != b[0] then a[0] < b[0]
    else Less(a[1..], b[1..])
  }

  /** a <= b on Python strings. */
  predicate LessEq(a: string, b: string) {
    a == b || Less(a, b)
  }

  lemma {:induction false} LessIrreflexive(a: string)
    ensures !Less(a, a)
  {
    if a != [] {
      LessIrreflexive(a[1..]);
    }
  }

  lemma {:induction false} LessTransitive(a: string, b: string, c: string)
    requires Less(a, b) && Less(b, c)
    ensures Less(a, c)
  {
    if a != [] && b != [] && c != [] && a[0] == b[0] && b[0] == c[0] {
      LessTransitive(a[1..], b[1..], c[1..]);
    }
  }

  lemma {:induction false} LessTotal(a: string, b: string)
    ensures a == b || Less(a, b) || Less(b, a)
  {
    if a != [] && b != [] && a[0] == b[0] {
      LessTotal(a[1..], b[1..]);
      if a[1..] == b[1..] {
        assert a == [a[0]] + a[1..] && b == [b[0]] + b[1..];
      }
    }
  }

  lemma LessAsymmetric(a: string, b: string)
    requires Less(a, b)
    ensures !Less(b, a) && a != b
  {
    if Less(b, a) {
      LessTransitive(a, b, a);
      LessIrreflexive(a);
    }
    LessIrreflexive(a);
  }

  lemma LessEqTransitive(a: string, b: string, c: string)
    requires LessEq(a, b) && LessEq(b, c)
    ensures LessEq(a, c)
  {
    if a != b && b != c {
      LessTransitive(a, b, c);
    }
  }

  /** xs is in ascending order of key; equal keys may repeat. */
  ghost predicate SortedBy<T>(xs: seq<T>, key: T -> string) {
    forall i, j :: 0 <= i < j < |xs| ==> LessEq(key(xs[i]), key(xs[j]))
  }

  /** xs is in strictly ascending order of key, so no key repeats. */
  ghost predicate StrictlySortedBy<T>(xs: seq<T>, key: T -> string) {
    forall i, j :: 0 <= i < j < |xs| ==> Less(key(xs[i]), key(xs[j]))
  }

  /** The key of a string is the string itself. */
  function Self(s: string): string {
    s
  }

  /** Inserts x before the first element whose key is not smaller, so that x stays ahead of
      equal keys that came after it in the input. */
  function Insert<T>(x: T, xs: seq<T>, key: T -> string): (r: seq<T>)
    requires SortedBy(xs, key)
    ensures SortedBy(r, key)
    ensures multiset(r) == multiset(xs) + multiset{x}
  {
    if xs == [] then [x]
    else if !Less(key(xs[0]), key(x)) then
      InsertFront(x, xs, key);
      [x] + xs
    else
      var rest := Insert(x, xs[1..], key);
      InsertBehind(x, xs, key, rest);
      [xs[0]] + rest
  }

  lemma InsertFront<T>(x: T, xs: seq<T>, key: T -> string)
    requires SortedBy(xs, key) && xs != [] && !Less(key(xs[0]), key(x))
    ensures SortedBy([x] + xs, key)
  {
    LessTotal(key(xs[0]), key(x));
    forall j | 0 < j < |xs| ensures LessEq(key(x), key(xs[j])) {
      LessEqTransitive(key(x), key(xs[0]), key(xs[j]));
    }
  }

  lemma InsertBehind<T>(x: T, xs: seq<T>, key: T -> string, rest: seq<T>)
    requires SortedBy(xs, key) && xs != [] && Less(key(xs[0]), key(x))
    requires SortedBy(rest, key) && multiset(rest) == multiset(xs[1..]) + multiset{x}
    ensures SortedBy([xs[0]] + rest, key)
    ensures multiset([xs[0]] + rest) == multiset(xs) + multiset{x}
  {
    assert forall y :: y in multiset(rest) ==> y == x || y in xs[1..];
    forall j | 0 <= j < |rest| ensures LessEq(key(xs[0]), key(rest[j])) {
      assert rest[j] in multiset(rest);
      if rest[j] != x {
        var k :| 1 <= k < |xs| && xs[k] == rest[j];
      }
    }
    assert xs == [xs[0]] + xs[1..];
  }

  /** sorted(xs, key=key): a stable sort; the result is ascending and a permutation of xs. */
  function SortBy<T>(xs: seq<T>, key: T -> string): (r: seq<T>)
    ensures SortedBy(r, key)
    ensures multiset(r) == multiset(xs)
  {
    if xs == [] then []
    else
      assert xs == [xs[0]] + xs[1..];
      Insert(xs[0], SortBy(xs[1..], key), key)
  }

  /** sorted(xs) on strings. */
  function Sort(xs: seq<string>): (r: seq<string>)
    ensures SortedBy(r, Self)
    ensures multiset(r) == multiset(xs)
  {
    SortBy(xs, Self)
  }

  /** Sorting a sequence that is already in order changes nothing. */
  lemma {:induction false} SortBySorted<T>(xs: seq<T>, key: T -> string)
    requires SortedBy(xs, key)
    ensures SortBy(xs, key) == xs
  {
    if xs != [] {
      SortBySorted(xs[1..], key);
      if |xs| > 1 {
        assert LessEq(key(xs[0]), key(xs[1]));
        if Less(key(xs[1]), key(xs[0])) {
          LessAsymmetric(key(xs[1]), key(xs[0]));
        }
      }
      assert [xs[0]] + xs[1..] == xs;
    }
  }

  /** A sorted sequence whose keys are distinct is strictly sorted. */
  lemma SortedDistinctIsStrict<T>(xs: seq<T>, key: T -> string)
    requires SortedBy(xs, key)
    requires forall i, j :: 0 <= i < j < |xs| ==> key(xs[i]) != key(xs[j])
    ensures StrictlySortedBy(xs, key)
  {
  }

  /** Two strictly sorted sequences of strings with the same elements are equal. */
  lemma {:induction false} StrictlySortedUnique(a: seq<string>, b: seq<string>)
    requires StrictlySortedBy(a, Self) && StrictlySortedBy(b, Self)
    requires forall s :: s in a <==> s in b
    ensures a == b
  {
    assert a == [] <==> b == [] by {
      if a != [] { assert a[0] in b; }
      if b != [] { assert b[0] in a; }
    }
    if a != [] {
      assert a[0] in b;
      assert b[0] in a;
      if a[0] != b[0] {
        var i :| 0 <= i < |a| && a[i] == b[0];
        var j :| 0 <= j < |b| && b[j] == a[0];
        assert i > 0 && j > 0;
        assert Less(a[0], b[0]) && Less(b[0], a[0]);
        LessAsymmetric(a[0], b[0]);
      }
      forall s ensures s in a[1..] <==> s in b[1..] {
        if s in a[1..] {
          var i :| 1 <= i < |a| && a[i] == s;
          assert Less(a[0], s);
          LessAsymmetric(a[0], s);
          assert s in b && s != b[0];
        }
        if s in b[1..] {
          var j :| 1 <= j < |b| && b[j] == s;
          assert Less(b[0], s);
          LessAsymmetric(b[0], s);
          assert s in a && s != a[0];
        }
      }
      StrictlySortedUnique(a[1..], b[1..]);
      assert a == [a[0]] + a[1..] && b == [b[0]] + b[1..];
    }
  }

  /** No element occurs twice. */
  ghost predicate Distinct<T>(xs: seq<T>) {
    forall i, j :: 0 <= i < j < |xs| ==> xs[i] != xs[j]
  }

  lemma {:induction false} DistinctCountsAtMostOne<T>(xs: seq<T>, x: T)
    requires Distinct(xs)
    ensures multiset(xs)[x] <= 1
  {
    if xs != [] {
      var init := xs[..|xs| - 1];
      assert xs == init + [xs[|xs| - 1]];
      DistinctCountsAtMostOne(init, x);
      if x == xs[|xs| - 1] {
        assert x !in init;
      }
    }
  }

  /** A permutation of a sequence without repetitions has no repetitions. */
  lemma DistinctPermutation<T>(a: seq<T>, b: seq<T>)
    requires Distinct(a) && multiset(a) == multiset(b)
    ensures Distinct(b)
  {
    forall i, j | 0 <= i < j < |b| ensures b[i] != b[j] {
      if b[i] == b[j] {
        assert b == b[..j] + b[j..];
        assert b[i] in b[..j] && b[j] in b[j..];
        assert multiset(b)[b[i]] == multiset(b[..j])[b[i]] + multiset(b[j..])[b[i]];
        DistinctCountsAtMostOne(a, b[i]);
      }
    }
  }
}
