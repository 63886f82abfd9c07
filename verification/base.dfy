/** Small generic building blocks shared by every module of the model. */
module Base {

  /** The conventional present/absent value; stands for Python's `None` next to a value. */
  datatype Option<T> = None | Some(value: T) {

    /** The carried value, or `default` when absent (Python's `d.get(k, default)`). */
    function GetOr(default: T): T {
      if Some? then value else default
    }
  }

  /** The in-order subsequence of `s` whose elements satisfy `keep`
      (a Python list comprehension with an `if` clause). Duplicates are kept:
      every element occurs in the result exactly as often as in `s`, or not at all. */
  function Filter<T(!new)>(s: seq<T>, keep: T -> bool): (r: seq<T>)
    ensures |r| <= |s|
    ensures forall i :: 0 <= i < |r| ==> keep(r[i]) && r[i] in s
  {
    if s == [] then []
    else
      var rest := Filter(s[1..], keep);
      if keep(s[0]) then [s[0]] + rest else rest
  }

  /** Filtering keeps every kept element exactly as often as it occurs, and drops
      every other one entirely. */
  lemma {:induction false} FilterCounts<T(!new)>(s: seq<T>, keep: T -> bool)
    ensures forall x :: multiset(Filter(s, keep))[x] == if keep(x) then multiset(s)[x] else 0
  {
    if s != [] {
      FilterCounts(s[1..], keep);
      assert s == [s[0]] + s[1..];
    }
  }

  /** Filtering distributes over concatenation. */
  lemma {:induction false} FilterAppend<T(!new)>(a: seq<T>, b: seq<T>, keep: T -> bool)
    ensures Filter(a + b, keep) == Filter(a, keep) + Filter(b, keep)
  {
    if a == [] {
      assert a + b == b;
    } else {
      assert (a + b)[1..] == a[1..] + b;
      FilterAppend(a[1..], b, keep);
    }
  }

  /** A filter that keeps nothing yields the empty sequence. */
  lemma {:induction false} FilterNone<T(!new)>(s: seq<T>, keep: T -> bool)
    requires forall i :: 0 <= i < |s| ==> !keep(s[i])
    ensures Filter(s, keep) == []
  {
    if s != [] {
      FilterNone(s[1..], keep);
    }
  }

  /** A filter that keeps everything is the identity. */
  lemma {:induction false} FilterAll<T(!new)>(s: seq<T>, keep: T -> bool)
    requires forall i :: 0 <= i < |s| ==> keep(s[i])
    ensures Filter(s, keep) == s
  {
    if s != [] {
      FilterAll(s[1..], keep);
    }
  }

  /** Concatenation regrouped. */
  lemma AppendAssoc<T>(a: seq<T>, b: seq<T>, c: seq<T>)
    ensures a + (b + c) == (a + b) + c
  {
  }

  /** Two singletons concatenated form a pair. */
  lemma PairConcat<T>(a: T, b: T)
    ensures [a] + [b] == [a, b]
  {
  }

  /** A non-empty sequence is its front followed by its last element. */
  lemma SplitLast<T>(s: seq<T>)
    requires s != []
    ensures s == s[..|s| - 1] + [s[|s| - 1]]
  {
  }

  /** A function that keeps its value from each position to the next over a stretch
      has the same value at both ends of it. */
  lemma {:induction false} StepsEqual<T>(f: nat -> T, lo: nat, hi: nat)
    requires lo <= hi
    requires forall k: nat :: lo <= k < hi ==> f(k) == f(k + 1)
    ensures f(lo) == f(hi)
    decreases hi - lo
  {
    if lo < hi {
      StepsEqual(f, lo + 1, hi);
    }
  }

  /** A singleton followed by nothing is the singleton. */
  lemma SingletonAppendEmpty<T>(a: T)
    ensures [a] + [] == [a]
  {
  }

  /** The three pieces of a concatenation, sliced back out. */
  lemma ThreeParts<T>(a: seq<T>, b: seq<T>, c: seq<T>)
    ensures (a + b + c)[..|a|] == a
    ensures (a + b + c)[|a|..|a| + |b|] == b
    ensures (a + b + c)[|a| + |b|..] == c
  {
  }
}
