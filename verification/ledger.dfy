/** The movement ledger: aggregates computed from an account's signed history
    (`calcBalance`, `calcIN`, `calcOut`, `calcInterest`) and the sorted view
    used by the sort button. Amounts are whole numbers; interest is exact. */
module Ledger {
  import opened Wrappers
  import opened Collections

  /** Left-to-right total of a history, the fold `reduce` performs. What
      the total means is stated by `SumAppend`, `SumFront` and `SumSplits`. */
  function Sum(s: seq<int>): (r: int)
  {
    if |s| == 0 then 0 else Sum(s[..|s| - 1]) + s[|s| - 1]
  }

  /** Adding from the front gives the same total as the left-to-right fold. */
  lemma {:induction false} SumFront(s: seq<int>)
    requires |s| > 0
    ensures Sum(s) == s[0] + Sum(s[1..])
    decreases |s|
  {
    if |s| > 1 {
      var init := s[..|s| - 1];
      SumFront(init);
      assert init[1..] == s[1..][..|s| - 2];
    }
  }

  lemma SumAppend(s: seq<int>, x: int)
    ensures Sum(s + [x]) == Sum(s) + x
  {
    assert (s + [x])[..|s|] == s;
  }

  /** A history of deposits only totals at least one unit per deposit. */
  lemma {:induction false} SumOfDeposits(t: seq<int>)
    requires forall i :: 0 <= i < |t| ==> t[i] > 0
    ensures Sum(t) >= |t|
  {
    if |t| > 0 {
      SumOfDeposits(t[..|t| - 1]);
    }
  }

  /** A history of withdrawals only totals at most minus one unit per withdrawal. */
  lemma {:induction false} SumOfWithdrawals(t: seq<int>)
    requires forall i :: 0 <= i < |t| ==> t[i] < 0
    ensures Sum(t) <= -|t|
  {
    if |t| > 0 {
      SumOfWithdrawals(t[..|t| - 1]);
    }
  }

  /** The deposits of a history (`filter` on a positive amount), in order. */
  function Deposits(s: seq<int>): seq<int>
  {
    Filter(s, x => x > 0)
  }

  lemma DepositsAppend(s: seq<int>, x: int)
    ensures Deposits(s + [x]) == if x > 0 then Deposits(s) + [x] else Deposits(s)
  {
    FilterAppend(s, x, y => y > 0);
  }

  /** The withdrawals of a history (`filter` on a negative amount), in order. */
  function Withdrawals(s: seq<int>): seq<int>
  {
    Filter(s, x => x < 0)
  }

  /** Money in (`calcIN`): the total of the strictly positive movements.
      It is zero exactly when the history holds no deposit. */
  function TotalIn(s: seq<int>): (r: int)
    ensures r >= 0
    ensures r == 0 <==> forall i :: 0 <= i < |s| ==> s[i] <= 0
  {
    var d := Deposits(s);
    SumOfDeposits(d);
    KeptIsEmptyIff(s, x => x > 0);
    Sum(d)
  }

  /** Money out (`calcOut`): the absolute value of the total of the strictly
      negative movements. It is zero exactly when nothing was withdrawn. */
  function TotalOut(s: seq<int>): (r: int)
    ensures r >= 0
    ensures r == 0 <==> forall i :: 0 <= i < |s| ==> s[i] >= 0
  {
    var w := Withdrawals(s);
    SumOfWithdrawals(w);
    KeptIsEmptyIff(s, x => x < 0);
    Abs(Sum(w))
  }

  /** Recording one more movement raises money in by it exactly when it is
      a deposit. */
  lemma TotalInAppend(s: seq<int>, x: int)
    ensures TotalIn(s + [x]) == TotalIn(s) + (if x > 0 then x else 0)
  {
    DepositsAppend(s, x);
    SumAppend(Deposits(s), x);
  }

  /** Recording one more movement raises money out by its size exactly when
      it is a withdrawal. */
  lemma TotalOutAppend(s: seq<int>, x: int)
    ensures TotalOut(s + [x]) == TotalOut(s) + (if x < 0 then -x else 0)
  {
    FilterAppend(s, x, y => y < 0);
    SumAppend(Withdrawals(s), x);
    SumOfWithdrawals(Withdrawals(s));
  }

  /** A filter keeps nothing exactly when no element qualifies. */
  lemma KeptIsEmptyIff(s: seq<int>, keep: int -> bool)
    ensures |Filter(s, keep)| == 0 <==> forall i :: 0 <= i < |s| ==> !keep(s[i])
  {
    if exists i :: 0 <= i < |s| && keep(s[i]) {
      var i :| 0 <= i < |s| && keep(s[i]);
      assert s[i] in Filter(s, keep);
    }
  }

  /** The absolute value (`Math.abs`). */
  function Abs(x: int): int
  {
    if x < 0 then -x else x
  }

  /** Every movement is either a deposit, a withdrawal or zero, so the total
      splits into the deposits' total and the withdrawals' total. */
  lemma {:induction false} SumSplits(s: seq<int>)
    ensures Sum(s) == Sum(Deposits(s)) + Sum(Withdrawals(s))
  {
    if |s| > 0 {
      var p, x := s[..|s| - 1], s[|s| - 1];
      assert s == p + [x];
      SumSplits(p);
      FilterAppend(p, x, y => y > 0);
      FilterAppend(p, x, y => y < 0);
      SumAppend(Deposits(p), x);
      SumAppend(Withdrawals(p), x);
    }
  }

  /** The three figures on the summary line agree: money in minus money out
      is the balance. */
  lemma BalanceIsInMinusOut(s: seq<int>)
    ensures TotalIn(s) - TotalOut(s) == Sum(s)
  {
    SumSplits(s);
    SumOfWithdrawals(Withdrawals(s));
  }

  /** `calcBalance`: `reduce` without an initial value throws a TypeError on an
      empty history, so no balance is produced then; otherwise the balance is
      money in minus money out. */
  function CalcBalance(s: seq<int>): (r: Option<int>)
    ensures r.None? <==> |s| == 0
    ensures r.Some? ==> r.value == TotalIn(s) - TotalOut(s)
  {
    if |s| == 0 then None
    else
      BalanceIsInMinusOut(s);
      Some(Sum(s))
  }

  /** The largest movement of a non-empty history. */
  function Largest(s: seq<int>): (r: int)
    requires |s| > 0
    ensures exists i :: 0 <= i < |s| && s[i] == r
    ensures forall i :: 0 <= i < |s| ==> s[i] <= r
  {
    if |s| == 1 then s[0]
    else
      var m := Largest(s[..|s| - 1]);
      assert forall i :: 0 <= i < |s| - 1 ==> s[..|s| - 1][i] == s[i];
      if s[|s| - 1] > m then s[|s| - 1] else m
  }

  /** Exact total of a sequence of interest amounts. */
  function RealSum(t: seq<real>): real
  {
    if |t| == 0 then 0.0 else RealSum(t[..|t| - 1]) + t[|t| - 1]
  }

  lemma RealSumAppend(t: seq<real>, x: real)
    ensures RealSum(t + [x]) == RealSum(t) + x
  {
    assert (t + [x])[..|t|] == t;
  }

  /** The interest one deposit earns at a percentage rate. */
  function InterestOn(deposit: int, rate: real): real
  {
    deposit as real * rate / 100.0
  }

  /** The interest each deposit earns at the rate (`map`), deposit by deposit. */
  function InterestTerms(ds: seq<int>, rate: real): (r: seq<real>)
    ensures |r| == |ds|
    ensures forall i :: 0 <= i < |ds| ==> r[i] == InterestOn(ds[i], rate)
  {
    if |ds| == 0 then [] else InterestTerms(ds[..|ds| - 1], rate) + [InterestOn(ds[|ds| - 1], rate)]
  }

  /** Interest is additive in the amount it is earned on. */
  lemma InterestOnAdds(a: int, b: int, rate: real)
    ensures InterestOn(a + b, rate) == InterestOn(a, rate) + InterestOn(b, rate)
  {
    assert (a + b) as real * rate == a as real * rate + b as real * rate;
  }

  /** The interest terms of a history total the interest its total would earn. */
  lemma {:induction false} InterestTermsTotal(ds: seq<int>, rate: real)
    ensures RealSum(InterestTerms(ds, rate)) == InterestOn(Sum(ds), rate)
  {
    if |ds| > 0 {
      var p, x := ds[..|ds| - 1], ds[|ds| - 1];
      InterestTermsTotal(p, rate);
      RealSumAppend(InterestTerms(p, rate), InterestOn(x, rate));
      InterestOnAdds(Sum(p), x, rate);
    }
  }

  /** Dropping terms that are not negative never raises the total. */
  lemma {:induction false} FilterLowersRealSum(t: seq<real>, keep: real -> bool)
    requires forall i :: 0 <= i < |t| ==> t[i] >= 0.0
    ensures 0.0 <= RealSum(Filter(t, keep)) <= RealSum(t)
  {
    if |t| > 0 {
      var p, x := t[..|t| - 1], t[|t| - 1];
      assert t == p + [x];
      FilterLowersRealSum(p, keep);
      FilterAppend(p, x, keep);
      RealSumAppend(p, x);
      RealSumAppend(Filter(p, keep), x);
    }
  }

  /** The interest amounts that are kept: those of at least one unit (`filter`). */
  function CountedInterest(s: seq<int>, rate: real): seq<real>
  {
    Filter(InterestTerms(Deposits(s), rate), t => t >= 1.0)
  }

  /** `calcInterest`: every deposit earns `deposit * rate / 100`, amounts
      below one unit are dropped, and the rest are totalled. The result is
      never negative, is zero at a rate of zero or below, and never exceeds
      the rate applied to the money in. */
  function Interest(s: seq<int>, rate: real): (r: real)
    ensures r >= 0.0
    ensures rate <= 0.0 ==> r == 0.0
    ensures rate >= 0.0 ==> r <= InterestOn(TotalIn(s), rate)
  {
    InterestBounds(s, rate);
    RealSum(CountedInterest(s, rate))
  }

  lemma InterestBounds(s: seq<int>, rate: real)
    ensures RealSum(CountedInterest(s, rate)) >= 0.0
    ensures rate <= 0.0 ==> RealSum(CountedInterest(s, rate)) == 0.0
    ensures rate >= 0.0 ==> RealSum(CountedInterest(s, rate)) <= InterestOn(TotalIn(s), rate)
  {
    if rate <= 0.0 {
      NothingCountedAtNonPositiveRate(s, rate);
    }
    if rate >= 0.0 {
      CountedInterestAtMostRateOfIn(s, rate);
    }
  }

  lemma NothingCountedAtNonPositiveRate(s: seq<int>, rate: real)
    requires rate <= 0.0
    ensures CountedInterest(s, rate) == []
  {
    var ds := Deposits(s);
    var terms := InterestTerms(ds, rate);
    forall i | 0 <= i < |terms| ensures terms[i] < 1.0 {
      assert ds[i] in ds;
      assert ds[i] > 0;
      NonPositiveProduct(ds[i] as real, rate);
    }
    KeptRealsEmpty(terms);
  }

  lemma NonPositiveProduct(d: real, rate: real)
    requires d > 0.0 && rate <= 0.0
    ensures d * rate / 100.0 < 1.0
  {
  }

  lemma KeptRealsEmpty(t: seq<real>)
    requires forall i :: 0 <= i < |t| ==> t[i] < 1.0
    ensures Filter(t, x => x >= 1.0) == []
  {
    var k := Filter(t, x => x >= 1.0);
    if |k| > 0 {
      assert k[0] in t;
    }
  }

  lemma CountedInterestAtMostRateOfIn(s: seq<int>, rate: real)
    requires rate >= 0.0
    ensures 0.0 <= RealSum(CountedInterest(s, rate)) <= InterestOn(TotalIn(s), rate)
  {
    var terms := InterestTerms(Deposits(s), rate);
    DepositTermsNonNegative(Deposits(s), rate);
    FilterLowersRealSum(terms, x => x >= 1.0);
    DepositTermsTotal(s, rate);
  }

  /** All deposit interest together is what the money in would earn. */
  lemma DepositTermsTotal(s: seq<int>, rate: real)
    ensures RealSum(InterestTerms(Deposits(s), rate)) == InterestOn(TotalIn(s), rate)
  {
    InterestTermsTotal(Deposits(s), rate);
  }

  lemma DepositTermsNonNegative(ds: seq<int>, rate: real)
    requires rate >= 0.0
    requires forall i :: 0 <= i < |ds| ==> ds[i] > 0
    ensures forall i :: 0 <= i < |ds| ==> InterestTerms(ds, rate)[i] >= 0.0
  {
    forall i | 0 <= i < |ds| ensures InterestOn(ds[i], rate) >= 0.0 {
      NonNegativeProduct(ds[i] as real, rate);
    }
  }

  lemma NonNegativeProduct(d: real, rate: real)
    requires d > 0.0 && rate >= 0.0
    ensures d * rate / 100.0 >= 0.0
  {
  }

  /** No interest amount is below one unit except by being dropped: every
      counted amount comes from a deposit and is at least one. */
  lemma CountedInterestComesFromDeposits(s: seq<int>, rate: real, t: real)
    requires t in CountedInterest(s, rate)
    ensures t >= 1.0
    ensures exists d :: d in s && d > 0 && t == InterestOn(d, rate)
  {
    var terms := InterestTerms(Deposits(s), rate);
    assert t in terms;
    var i :| 0 <= i < |terms| && terms[i] == t;
    assert Deposits(s)[i] in s;
  }

  /** The interest a single movement contributes: deposits earning at least
      one unit count in full, everything else counts nothing. */
  function OwnInterest(x: int, rate: real): real
  {
    if x > 0 && InterestOn(x, rate) >= 1.0 then InterestOn(x, rate) else 0.0
  }

  /** Interest is earned deposit by deposit, not on the balance: recording one
      more movement adds exactly that movement's own interest. */
  lemma InterestAppend(s: seq<int>, x: int, rate: real)
    ensures Interest(s + [x], rate) == Interest(s, rate) + OwnInterest(x, rate)
  {
    DepositsAppend(s, x);
    var ds := Deposits(s);
    if x > 0 {
      assert InterestTerms(ds + [x], rate) == InterestTerms(ds, rate) + [InterestOn(x, rate)] by {
        assert (ds + [x])[..|ds|] == ds;
      }
      FilterAppend(InterestTerms(ds, rate), InterestOn(x, rate), t => t >= 1.0);
      if InterestOn(x, rate) >= 1.0 {
        RealSumAppend(CountedInterest(s, rate), InterestOn(x, rate));
      }
    }
  }

  /** Movements in ascending order. */
  ghost predicate Ascending(s: seq<int>)
  {
    forall i, j :: 0 <= i < j < |s| ==> s[i] <= s[j]
  }

  /** Places one amount into an ascending sequence. */
  function Insert(x: int, s: seq<int>): (r: seq<int>)
    requires Ascending(s)
    ensures Ascending(r)
    ensures multiset(r) == multiset(s) + multiset{x}
  {
    if |s| == 0 then [x]
    else if x <= s[0] then [x] + s
    else
      var rest := Insert(x, s[1..]);
      assert s == [s[0]] + s[1..];
      InsertAbove(s[0], x, s[1..], rest);
      [s[0]] + rest
  }

  /** An amount below both the inserted one and the rest stays below the result. */
  lemma InsertAbove(lo: int, x: int, s: seq<int>, r: seq<int>)
    requires lo <= x && forall k :: 0 <= k < |s| ==> lo <= s[k]
    requires multiset(r) == multiset(s) + multiset{x}
    ensures forall k :: 0 <= k < |r| ==> lo <= r[k]
  {
    forall k | 0 <= k < |r|
      ensures lo <= r[k]
    {
      assert r[k] in multiset(r);
      if r[k] != x {
        assert r[k] in multiset(s);
      }
    }
  }

  /** `acc.movements.slice().sort((a, b) => a - b)`: a fresh ascending
      permutation of the history; the history itself is a value and is not
      touched. */
  function SortedView(s: seq<int>): (r: seq<int>)
    ensures Ascending(r)
    ensures multiset(r) == multiset(s)
  {
    if |s| == 0 then []
    else
      assert s == s[..|s| - 1] + [s[|s| - 1]];
      Insert(s[|s| - 1], SortedView(s[..|s| - 1]))
  }

  /** An amount no smaller than everything already placed goes at the end. */
  lemma {:induction false} InsertLargest(x: int, s: seq<int>)
    requires Ascending(s)
    requires forall k :: 0 <= k < |s| ==> s[k] <= x
    ensures Insert(x, s) == s + [x]
  {
    if |s| > 0 {
      if x <= s[0] {
        assert s[0] == x;
        assert forall k :: 0 <= k < |s| ==> s[k] == x;
      } else {
        InsertLargest(x, s[1..]);
        assert s == [s[0]] + s[1..];
      }
    }
  }

  /** Sorting a history that is already ascending changes nothing, so
      pressing sort on the sorted view shows the same rows. */
  lemma {:induction false} SortedViewOfAscending(s: seq<int>)
    requires Ascending(s)
    ensures SortedView(s) == s
    decreases |s|
  {
    if |s| > 0 {
      var init, last := s[..|s| - 1], s[|s| - 1];
      AscendingInit(s, init);
      SortedViewOfAscending(init);
      assert SortedView(s) == Insert(last, init);
      InsertLargest(last, init);
      assert init + [last] == s;
    }
  }

  /** The front of an ascending sequence is ascending and lies below its last element. */
  lemma AscendingInit(s: seq<int>, init: seq<int>)
    requires Ascending(s) && |s| > 0 && init == s[..|s| - 1]
    ensures Ascending(init)
    ensures forall k :: 0 <= k < |init| ==> init[k] <= s[|s| - 1]
  {
  }

  /** Sorting is idempotent. */
  lemma SortedViewIdempotent(s: seq<int>)
    ensures SortedView(SortedView(s)) == SortedView(s)
  {
    SortedViewOfAscending(SortedView(s));
  }

  /** The sequence `displayMovements` renders: the history itself, or its
      sorted copy when the sort toggle is on. Either way it holds the same
      movements. */
  function MovementsView(s: seq<int>, sort: bool): (r: seq<int>)
    ensures multiset(r) == multiset(s)
    ensures sort ==> Ascending(r)
    ensures !sort ==> r == s
  {
    if sort then SortedView(s) else s
  }
}
