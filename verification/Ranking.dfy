/** Python's `sorted` with a numeric key, as the sales agent uses it on its actions
    (apps/hotmart-ebook-agent/hotmart_agent/policy.py). */
module Ranking {
  /** Puts an item before the first one of at most its priority. */
  function Insert<T>(x: T, xs: seq<T>, priority: T -> real): seq<T> {
    if xs == [] || priority(xs[0]) <= priority(x) then [x] + xs else [xs[0]] + Insert(x, xs[1..], priority)
  }

  /** `sorted(xs, key=lambda x: -priority(x))`. */
  function Sorted<T>(xs: seq<T>, priority: T -> real): seq<T> {
    if xs == [] then [] else Insert(xs[0], Sorted(xs[1..], priority), priority)
  }

  ghost predicate Descending<T>(xs: seq<T>, priority: T -> real) {
    forall i, j :: 0 <= i < j < |xs| ==> priority(xs[i]) >= priority(xs[j])
  }

  /** The items of one priority, in order. */
  function Class<T>(xs: seq<T>, priority: T -> real, p: real): seq<T> {
    if xs == [] then [] else (if priority(xs[0]) == p then [xs[0]] else []) + Class(xs[1..], priority, p)
  }

  lemma {:induction false} InsertKeeps<T>(x: T, xs: seq<T>, priority: T -> real)
    ensures multiset(Insert(x, xs, priority)) == multiset{x} + multiset(xs)
  {
    if xs != [] && priority(xs[0]) > priority(x) {
      InsertKeeps(x, xs[1..], priority);
      assert xs == [xs[0]] + xs[1..];
    }
  }

  lemma {:induction false} InsertDescending<T>(x: T, xs: seq<T>, priority: T -> real)
    requires Descending(xs, priority)
    ensures Descending(Insert(x, xs, priority), priority)
  {
    if xs != [] && priority(xs[0]) > priority(x) {
      var rest := Insert(x, xs[1..], priority);
      InsertDescending(x, xs[1..], priority);
      InsertKeeps(x, xs[1..], priority);
      forall j | 0 <= j < |rest| ensures priority(xs[0]) >= priority(rest[j]) {
        assert rest[j] in multiset(rest);
        assert rest[j] == x || rest[j] in xs[1..];
      }
    }
  }

  lemma {:induction false} InsertStable<T>(x: T, xs: seq<T>, priority: T -> real, p: real)
    ensures Class(Insert(x, xs, priority), priority, p) ==
            (if priority(x) == p then [x] else []) + Class(xs, priority, p)
  {
    if xs != [] && priority(xs[0]) > priority(x) {
      InsertStable(x, xs[1..], priority, p);
      assert ([xs[0]] + Insert(x, xs[1..], priority))[1..] == Insert(x, xs[1..], priority);
    } else {
      assert ([x] + xs)[1..] == xs;
    }
  }

  /** Sorting rearranges into descending order, and keeps the order among equals. */
  lemma {:induction false} SortedRight<T>(xs: seq<T>, priority: T -> real, p: real)
    ensures multiset(Sorted(xs, priority)) == multiset(xs)
    ensures Descending(Sorted(xs, priority), priority)
    ensures Class(Sorted(xs, priority), priority, p) == Class(xs, priority, p)
  {
    if xs != [] {
      var rest := Sorted(xs[1..], priority);
      SortedRight(xs[1..], priority, p);
      InsertKeeps(xs[0], rest, priority);
      InsertDescending(xs[0], rest, priority);
      InsertStable(xs[0], rest, priority, p);
      assert xs == [xs[0]] + xs[1..];
    }
  }
}
