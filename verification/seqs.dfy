/** Sequence operations the two list views are built from: JavaScript's
    `Array.prototype.filter` and `Array.prototype.slice`, and the facts about
    them that the views rely on. */
module Seqs {

  /** `a` is what remains of `b` after deleting some of its elements, in the
      order they had in `b`. Greedy matching is complete for subsequences. */
  predicate IsSubsequence<T(==)>(a: seq<T>, b: seq<T>)
    decreases |b|
  {
    if a == [] then true
    else if b == [] then false
    else if a[0] == b[0] then IsSubsequence(a[1..], b[1..])
    else IsSubsequence(a, b[1..])
  }

  predicate NoDuplicates<T(==)>(s: seq<T>) {
    forall i, j :: 0 <= i < j < |s| ==> s[i] != s[j]
  }

  function Min(a: int, b: int): (m: int) { if a <= b then a else b }

  /** `s.filter(keep)`: the elements that pass, in their original order. */
  function Filter<T(==,!new)>(s: seq<T>, keep: T -> bool): (r: seq<T>)
    ensures |r| <= |s|
    ensures forall x :: x in r <==> x in s && keep(x)
    ensures IsSubsequence(r, s)
  {
    if s == [] then []
    else if keep(s[0]) then [s[0]] + Filter(s[1..], keep)
    else Filter(s[1..], keep)
  }

  /** Filtering keeps every passing element as often as it occurs, and drops
      every other one entirely. */
  lemma {:induction false} FilterMultiplicity<T(!new)>(s: seq<T>, keep: T -> bool)
    ensures forall x :: multiset(Filter(s, keep))[x] == if keep(x) then multiset(s)[x] else 0
  {
    if s != [] {
      assert s == [s[0]] + s[1..];
      FilterMultiplicity(s[1..], keep);
    }
  }

  /** When every element passes, filtering changes nothing. */
  lemma {:induction false} FilterAllPass<T(!new)>(s: seq<T>, keep: T -> bool)
    requires forall i | 0 <= i < |s| :: keep(s[i])
    ensures Filter(s, keep) == s
  {
    if s != [] {
      assert keep(s[0]);
      FilterAllPass(s[1..], keep);
    }
  }

  /** Filtering a sequence without duplicates gives one without duplicates. */
  lemma {:induction false} FilterNoDuplicates<T(!new)>(s: seq<T>, keep: T -> bool)
    requires NoDuplicates(s)
    ensures NoDuplicates(Filter(s, keep))
  {
    if s != [] {
      assert NoDuplicates(s[1..]);
      FilterNoDuplicates(s[1..], keep);
      assert s[0] !in s[1..];
    }
  }

  /** Filtering distributes over appending one element at the end. */
  lemma {:induction false} FilterSnoc<T(!new)>(s: seq<T>, x: T, keep: T -> bool)
    ensures Filter(s + [x], keep) == Filter(s, keep) + (if keep(x) then [x] else [])
  {
    if s == [] {
      assert s + [x] == [x];
    } else {
      assert (s + [x])[0] == s[0];
      assert (s + [x])[1..] == s[1..] + [x];
      FilterSnoc(s[1..], x, keep);
    }
  }

  /** The positions of `s` whose element passes `keep`. */
  ghost function PassingPositions<T>(s: seq<T>, keep: T -> bool): (ps: set<nat>) {
    set i: nat | i < |s| && keep(s[i])
  }

  /** The length of a filtered sequence is the number of positions whose
      element passes the predicate. */
  lemma {:induction false} FilterLength<T(!new)>(s: seq<T>, keep: T -> bool)
    ensures |Filter(s, keep)| == |PassingPositions(s, keep)|
  {
    if s == [] {
      assert PassingPositions(s, keep) == {};
    } else {
      var init, last := s[..|s| - 1], s[|s| - 1];
      assert s == init + [last];
      FilterSnoc(init, last, keep);
      FilterLength(init, keep);
      PassingPositionsSnoc(init, last, keep);
    }
  }

  lemma PassingPositionsSnoc<T>(s: seq<T>, x: T, keep: T -> bool)
    ensures PassingPositions(s + [x], keep)
         == PassingPositions(s, keep) + (if keep(x) then {|s|} else {})
  {
    var t := s + [x];
    forall i: nat ensures i in PassingPositions(t, keep) <==> i in PassingPositions(s, keep) + (if keep(x) then {|s|} else {}) {
      if i < |s| { assert t[i] == s[i]; }
    }
  }

  /** Filtering with two predicates that agree on the elements present gives
      the same result. */
  lemma {:induction false} FilterCongruent<T(!new)>(s: seq<T>, k1: T -> bool, k2: T -> bool)
    requires forall x | x in s :: k1(x) == k2(x)
    ensures Filter(s, k1) == Filter(s, k2)
  {
    if s != [] {
      assert s[0] in s;
      assert forall x | x in s[1..] :: x in s;
      FilterCongruent(s[1..], k1, k2);
    }
  }

  /** `s.filter(y => y !== x)`: every occurrence of `x` removed. */
  function RemoveAll<T(==,!new)>(s: seq<T>, x: T): (r: seq<T>)
    ensures x !in r
    ensures forall y :: y != x ==> multiset(r)[y] == multiset(s)[y]
    ensures IsSubsequence(r, s)
    ensures x !in s ==> r == s
    ensures NoDuplicates(s) ==> NoDuplicates(r)
  {
    var keep := y => y != x;
    FilterMultiplicity(s, keep);
    if x !in s then FilterAllPass(s, keep); Filter(s, keep)
    else if NoDuplicates(s) then FilterNoDuplicates(s, keep); Filter(s, keep)
    else Filter(s, keep)
  }

  /** Removing an element appended at the end, when it was absent before,
      gives back the original sequence. */
  lemma RemoveAllAfterAppend<T(!new)>(s: seq<T>, x: T)
    requires x !in s
    ensures RemoveAll(s + [x], x) == s
  {
    FilterSnoc(s, x, y => y != x);
    FilterAllPass(s, y => y != x);
  }

  /** Index normalisation of `Array.prototype.slice`: a negative index counts
      from the end; the result is clamped to `[0, len]`. */
  function SliceIndex(i: int, len: nat): (k: nat)
    ensures k <= len
    ensures 0 <= i <= len ==> k == i
    ensures i > len ==> k == len
    ensures i < 0 ==> k == Min(len, if len + i < 0 then 0 else len + i)
  {
    if i < 0 then (if len + i < 0 then 0 else len + i)
    else if i > len then len
    else i
  }

  /** `s.slice(start, end)`. */
  function JsSlice<T>(s: seq<T>, start: int, end: int): (r: seq<T>)
    ensures |r| <= |s|
    ensures 0 <= start <= end ==> |r| <= end - start
    ensures 0 <= start <= end <= |s| ==> r == s[start..end]
    ensures end == 0 ==> r == []
    ensures start >= |s| ==> r == []
    ensures forall x | x in r :: x in s
  {
    var from, to := SliceIndex(start, |s|), SliceIndex(end, |s|);
    if from < to then s[from..to] else []
  }
}
