/** Order-preserving filtering, the model of `Array.prototype.filter`. */
module Collections {

  /** The elements of `s` that satisfy `keep`, in their original order. */
  function Filter<T>(s: seq<T>, keep: T -> bool): (r: seq<T>)
    ensures |r| <= |s|
    ensures forall i :: 0 <= i < |r| ==> r[i] in s && keep(r[i])
    ensures forall i :: 0 <= i < |s| && keep(s[i]) ==> s[i] in r
  {
    if |s| == 0 then []
    else
      var p := Filter(s[..|s| - 1], keep);
      assert s == s[..|s| - 1] + [s[|s| - 1]];
      if keep(s[|s| - 1]) then p + [s[|s| - 1]] else p
  }

  /** Every kept element occurs as often as in the input, and no other
      element occurs at all. */
  lemma {:induction false} FilterCounts<T>(s: seq<T>, keep: T -> bool, x: T)
    ensures multiset(Filter(s, keep))[x] == if keep(x) then multiset(s)[x] else 0
  {
    if |s| > 0 {
      var init, last := s[..|s| - 1], s[|s| - 1];
      FilterCounts(init, keep, x);
      assert s == init + [last];
      assert multiset(s) == multiset(init) + multiset{last};
      var p := Filter(init, keep);
      if keep(last) {
        assert multiset(p + [last]) == multiset(p) + multiset{last};
      }
    }
  }

  /** Filtering distributes over appending one element. */
  lemma FilterAppend<T>(s: seq<T>, x: T, keep: T -> bool)
    ensures Filter(s + [x], keep) == if keep(x) then Filter(s, keep) + [x] else Filter(s, keep)
  {
    assert (s + [x])[..|s|] == s;
  }
}
