/** The sequence scans the extractor is built from: the first element that
    passes a test (a `for ... : if ...: break` loop), the first start/end
    pair of a section, and dropping the elements that fail a test while
    keeping the order of the rest. */
module Scan {

  /** A section boundary (a pair of positions), or the "not found" sentinel. */
  datatype Boundary = NotFound | Section(start: nat, end: nat)

  /** The least index at or after `from` whose element satisfies `p`, or -1.
      Its minimality is `FirstIndexIsLeast`. */
  function FirstIndex<T>(s: seq<T>, from: nat, p: T -> bool): (r: int)
    ensures r == -1 || (from <= r < |s| && p(s[r]))
    decreases |s| - from
  {
    if from >= |s| then -1
    else if p(s[from]) then from
    else FirstIndex(s, from + 1, p)
  }

  /** No element before the result satisfies `p`, and -1 means none does. */
  lemma {:induction false} FirstIndexIsLeast<T>(s: seq<T>, from: nat, p: T -> bool)
    ensures var r := FirstIndex(s, from, p);
      && (r == -1 ==> forall j :: from <= j < |s| ==> !p(s[j]))
      && (r != -1 ==> forall j :: from <= j < r ==> !p(s[j]))
    decreases |s| - from
  {
    if from < |s| && !p(s[from]) {
      FirstIndexIsLeast(s, from + 1, p);
    }
  }

  /** Tests that agree from `from` on find the same first index. */
  lemma {:induction false} FirstIndexAgree<T>(s: seq<T>, from: nat, p: T -> bool, q: T -> bool)
    requires forall i :: from <= i < |s| ==> p(s[i]) == q(s[i])
    ensures FirstIndex(s, from, p) == FirstIndex(s, from, q)
    decreases |s| - from
  {
    if from < |s| {
      FirstIndexAgree(s, from + 1, p, q);
    }
  }

  /** One step of the scan: an element that fails the test is passed over. */
  lemma FirstIndexSkip<T>(s: seq<T>, i: nat, p: T -> bool)
    requires i < |s| && !p(s[i])
    ensures FirstIndex(s, i, p) == FirstIndex(s, i + 1, p)
  {
  }

  /** One step of the scan: an element that passes the test is the answer. */
  lemma FirstIndexHit<T>(s: seq<T>, i: nat, p: T -> bool)
    requires i < |s| && p(s[i])
    ensures FirstIndex(s, i, p) == i
  {
  }

  /** The test an element passes when it is not skipped and its key passes
      `test`. */
  function Candidate<T, K>(skip: T -> bool, key: T -> K, test: K -> bool): T -> bool {
    x => !skip(x) && test(key(x))
  }

  /** The section scan: skipped elements are passed over; the first element
      whose key passes `isStart` becomes the start, and the first later one
      whose key passes `isEnd` becomes the end and stops the scan. The start
      element itself is never tested as an end. */
  method ScanSection<T, K>(s: seq<T>, skip: T -> bool, key: T -> K, isStart: K -> bool, isEnd: K -> bool)
    returns (start: int, end: int)
    ensures start == FirstIndex(s, 0, Candidate(skip, key, isStart))
    ensures end == (if start == -1 then -1 else FirstIndex(s, start + 1, Candidate(skip, key, isEnd)))
  {
    ghost var S, E := Candidate(skip, key, isStart), Candidate(skip, key, isEnd);
    start, end := -1, -1;
    var i := 0;
    while i < |s|
      invariant 0 <= i <= |s|
      invariant end == -1
      invariant start == -1 ==> FirstIndex(s, 0, S) == FirstIndex(s, i, S)
      invariant start != -1 ==> 0 <= start < i && start == FirstIndex(s, 0, S)
      invariant start != -1 ==> FirstIndex(s, start + 1, E) == FirstIndex(s, i, E)
    {
      if skip(s[i]) {
        FirstIndexSkip(s, i, S);
        FirstIndexSkip(s, i, E);
        i := i + 1;
        continue;
      }
      var k := key(s[i]);
      if start == -1 && isStart(k) {
        FirstIndexHit(s, i, S);
        start := i;
      } else if start != -1 && isEnd(k) {
        FirstIndexHit(s, i, E);
        end := i;
        break;
      } else if start == -1 {
        FirstIndexSkip(s, i, S);
      } else {
        FirstIndexSkip(s, i, E);
      }
      i := i + 1;
    }
  }

  /** The elements of `s` that `drop` rejects removed, the rest in order. */
  function Without<T>(s: seq<T>, drop: T -> bool): (r: seq<T>)
    ensures |r| <= |s|
    ensures forall x :: x in r ==> x in s && !drop(x)
  {
    if s == [] then []
    else
      var last := s[|s| - 1];
      Without(s[..|s| - 1], drop) + (if drop(last) then [] else [last])
  }

  /** Filtering distributes over concatenation. */
  lemma {:induction false} WithoutConcat<T>(a: seq<T>, b: seq<T>, drop: T -> bool)
    ensures Without(a + b, drop) == Without(a, drop) + Without(b, drop)
    decreases |b|
  {
    if b != [] {
      var b' := b[..|b| - 1];
      assert (a + b)[..|a + b| - 1] == a + b';
      WithoutConcat(a, b', drop);
    } else {
      assert a + b == a;
    }
  }

  /** Each value is kept as often as it occurs, or not at all when dropped. */
  lemma {:induction false} WithoutCount<T>(s: seq<T>, drop: T -> bool, x: T)
    ensures multiset(Without(s, drop))[x] == if drop(x) then 0 else multiset(s)[x]
  {
    if s != [] {
      var init, last := s[..|s| - 1], s[|s| - 1];
      WithoutCount(init, drop, x);
      assert s == init + [last];
      assert multiset(s) == multiset(init) + multiset{last};
      if drop(last) {
        assert Without(s, drop) == Without(init, drop) + [];
      } else {
        assert multiset(Without(s, drop)) == multiset(Without(init, drop)) + multiset{last};
      }
    }
  }
}
