/** Worked instances of the rules on the demo accounts' data.

    As in `Demo`, each literal rate or history is a parameter pinned by a
    `requires`, so that the verifier reasons through the general lemmas
    instead of unfolding the recursive definitions on the literal. */
module Examples {
  import opened Ledger
  import opened Bankist

  /** At the first demo account's 1.2%, its 70 deposit earns 0.84 and is
      dropped while its 1300 deposit earns 15.6 and counts. */
  lemma SubUnitInterestIsDropped(rate: real)
    requires rate == 1.2
    ensures InterestOn(70, rate) == 0.84
    ensures Interest([70, 1300], rate) == 15.6
  {
    InterestOfTwo(70, 1300, rate);
    assert InterestOn(70, rate) == 0.84;
    assert InterestOn(1300, rate) == 15.6;
  }

  /** The interest of a two-movement history is the sum of each movement's own. */
  lemma InterestOfTwo(a: int, b: int, rate: real)
    ensures Interest([a, b], rate) == OwnInterest(a, rate) + OwnInterest(b, rate)
  {
    var e: seq<int> := [];
    InterestAppend(e, a, rate);
    InterestAppend(e + [a], b, rate);
    assert e + [a] + [b] == [a, b];
    assert Deposits(e) == [];
  }

  /** The first demo account's history qualifies for a loan of 2000 (its
      200 deposit is a tenth of it) and, through its 3000 deposit, for up
      to 30000, but for nothing above that. */
  lemma LoanNeedsATenth(m: seq<int>)
    requires m == [200, 450, -400, 3000, -650, -130, 70, 1300]
    ensures Creditworthy(m, 2000) && Creditworthy(m, 30000)
    ensures !Creditworthy(m, 30001)
  {
    assert 10 * m[0] >= 2000;
    assert 10 * m[3] >= 30000;
  }
}
