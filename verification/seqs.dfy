/** The list idioms the controllers use: building a new ArrayList of the
    elements that pass a test, and collecting values without repeats. */
module Seqs {

  /** The elements of `s` that pass `keep`, in their original order; defined the
      way the Java loops build it, by appending as they walk the input. */
  function Filter<T(!new)>(s: seq<T>, keep: T -> bool): (r: seq<T>)
    ensures |r| <= |s|
    ensures forall x :: x in r <==> x in s && keep(x)
  {
    if |s| == 0 then []
    else
      var last := s[|s| - 1];
      assert s == s[..|s| - 1] + [last];
      Filter(s[..|s| - 1], keep) + (if keep(last) then [last] else [])
  }

  /** Every element that passes keeps all its occurrences; the others keep none. */
  lemma {:induction false} FilterCounts<T(!new)>(s: seq<T>, keep: T -> bool, x: T)
    ensures multiset(Filter(s, keep))[x] == if keep(x) then multiset(s)[x] else 0
    decreases |s|
  {
    if |s| > 0 {
      var last := s[|s| - 1];
      assert s == s[..|s| - 1] + [last];
      FilterCounts(s[..|s| - 1], keep, x);
    }
  }

  /** Appending one element appends it to the result when it passes. */
  lemma FilterSnoc<T(!new)>(s: seq<T>, x: T, keep: T -> bool)
    ensures Filter(s + [x], keep) == Filter(s, keep) + (if keep(x) then [x] else [])
  {
    var sx := s + [x];
    assert sx[..|sx| - 1] == s;
  }

  /** Filtering a concatenation filters each part and keeps the parts in order,
      so the result is an order-preserving subsequence of the input. */
  lemma {:induction false} FilterConcat<T(!new)>(s: seq<T>, t: seq<T>, keep: T -> bool)
    ensures Filter(s + t, keep) == Filter(s, keep) + Filter(t, keep)
    decreases |t|
  {
    if |t| == 0 {
      assert s + t == s;
    } else {
      var init := t[..|t| - 1];
      var last := t[|t| - 1];
      var tail := if keep(last) then [last] else [];
      assert t == init + [last];
      assert s + t == (s + init) + [last];
      calc {
        Filter(s + t, keep);
        { FilterSnoc(s + init, last, keep); }
        Filter(s + init, keep) + tail;
        { FilterConcat(s, init, keep); }
        Filter(s, keep) + Filter(init, keep) + tail;
        Filter(s, keep) + (Filter(init, keep) + tail);
        { FilterSnoc(init, last, keep); }
        Filter(s, keep) + Filter(t, keep);
      }
    }
  }

  /** A one-element input is kept or dropped as a whole. */
  lemma FilterSingle<T(!new)>(x: T, keep: T -> bool)
    ensures Filter([x], keep) == if keep(x) then [x] else []
  {
    assert [x][..0] == [];
  }

  /** The position of the first occurrence of `x` in `s`. */
  function FirstIndex<T(==)>(s: seq<T>, x: T): (k: nat)
    requires x in s
    ensures k < |s| && s[k] == x
    ensures forall i :: 0 <= i < k ==> s[i] != x
  {
    if s[0] == x then 0 else 1 + FirstIndex(s[1..], x)
  }

  predicate NoDuplicates<T(==)>(s: seq<T>)
  {
    forall i, j :: 0 <= i < j < |s| ==> s[i] != s[j]
  }

  /** `if (!list.contains(x)) list.add(x)` over the whole input: each value once,
      in the order of its first occurrence. */
  function Distinct<T(==,!new)>(s: seq<T>): (r: seq<T>)
    ensures NoDuplicates(r)
    ensures forall x :: x in r <==> x in s
    ensures forall i, j :: 0 <= i < j < |r| ==> FirstIndex(s, r[i]) < FirstIndex(s, r[j])
  {
    if |s| == 0 then []
    else
      var init := s[..|s| - 1];
      var last := s[|s| - 1];
      var d := Distinct(init);
      assert s == init + [last];
      forall y | y in init
        ensures FirstIndex(s, y) == FirstIndex(init, y) < |s| - 1
      {
      }
      if last in d then d
      else
        assert FirstIndex(s, last) == |s| - 1;
        d + [last]
  }
}
