/** The four demo accounts once the script has loaded them.

    Lemmas about one literal take it as a parameter pinned by a `requires`
    (`requires owner == "Jonas Schmedtmann"`) rather than stating the
    literal in the `ensures`: the verifier then reasons about the value
    through the general lemmas instead of unfolding the recursive
    definitions on the literal itself, which is far more expensive. */
module Demo {
  import opened Wrappers
  import opened Ledger
  import opened Accounts
  import opened Usernames
  import opened Bankist

  /** A two-word owner name gives the two lowercased initials. */
  lemma UsernameOfTwo(owner: string, a: string, b: string)
    requires owner == a + " " + b
    requires |a| > 0 && SpaceFree(a) && |b| > 0 && SpaceFree(b)
    ensures Username(owner) == [Lower(a[0]), Lower(b[0])]
  {
    assert JoinWords([a, b]) == owner by {
      assert [a, b][1..] == [b];
    }
    UsernameOfWords([a, b]);
  }

  /** A three-word owner name gives the three lowercased initials. */
  lemma UsernameOfThree(owner: string, a: string, b: string, c: string)
    requires owner == a + " " + b + " " + c
    requires |a| > 0 && SpaceFree(a) && |b| > 0 && SpaceFree(b) && |c| > 0 && SpaceFree(c)
    ensures Username(owner) == [Lower(a[0]), Lower(b[0]), Lower(c[0])]
  {
    assert JoinWords([a, b, c]) == owner by {
      assert [a, b, c][1..] == [b, c];
      assert [b, c][1..] == [c];
      assert JoinWords([b, c]) == b + " " + c;
      assert a + " " + (b + " " + c) == a + " " + b + " " + c;
    }
    UsernameOfWords([a, b, c]);
  }

  /* One lemma per demo owner: each is `UsernameOfTwo` or `UsernameOfThree`
     at that owner's name, so the page's four usernames can be cited one by
     one. */

  lemma JonasUsername(owner: string)
    requires owner == "Jonas Schmedtmann"
    ensures Username(owner) == "js"
  {
    UsernameOfTwo(owner, "Jonas", "Schmedtmann");
  }

  lemma JessicaUsername(owner: string)
    requires owner == "Jessica Davis"
    ensures Username(owner) == "jd"
  {
    UsernameOfTwo(owner, "Jessica", "Davis");
  }

  lemma SarahUsername(owner: string)
    requires owner == "Sarah Smith"
    ensures Username(owner) == "ss"
  {
    UsernameOfTwo(owner, "Sarah", "Smith");
  }

  /** The one three-word demo owner gets three initials. */
  lemma StevenUsername(owner: string)
    requires owner == "Steven Thomas Williams"
    ensures Username(owner) == "stw"
  {
    UsernameOfThree(owner, "Steven", "Thomas", "Williams");
  }

  /** The loaded demo page: four listed accounts with the usernames
      `createUsernames` derives from the demo owners, all distinct, and
      otherwise the objects as declared. */
  lemma DemoLoaded(demo: seq<Account>)
    requires |demo| == 4
    requires demo[0].owner == "Jonas Schmedtmann" && demo[1].owner == "Jessica Davis"
    requires demo[2].owner == "Steven Thomas Williams" && demo[3].owner == "Sarah Smith"
    ensures var app := Loaded(demo);
      && app.accounts == [0, 1, 2, 3]
      && app.heap[0].username == "js" && app.heap[1].username == "jd"
      && app.heap[2].username == "stw" && app.heap[3].username == "ss"
      && UniqueNames(app.heap, app.accounts)
  {
    var app := Loaded(demo);
    JonasUsername(demo[0].owner);
    JessicaUsername(demo[1].owner);
    SarahUsername(demo[3].owner);
    StevenUsername(demo[2].owner);
    FourListed(app.accounts);
    DistinctFour(app.heap, app.accounts);
  }

  lemma FourListed(ids: seq<ObjId>)
    requires |ids| == 4 && forall k :: 0 <= k < 4 ==> ids[k] == k
    ensures ids == [0, 1, 2, 3]
  {
  }

  lemma DistinctFour(heap: seq<Account>, ids: seq<ObjId>)
    requires ids == [0, 1, 2, 3] && |heap| == 4
    requires heap[0].username == "js" && heap[1].username == "jd"
    requires heap[2].username == "stw" && heap[3].username == "ss"
    ensures UniqueNames(heap, ids)
  {
  }

  /** The demo accounts field by field, as far as the handlers look at
      them: the owners, the pins, the balances, the first two accounts
      dated (one date per movement) and with a currency, the last two
      undated. */
  predicate DemoShape(demo: seq<Account>)
  {
    && |demo| == 4
    && demo[0].owner == "Jonas Schmedtmann" && demo[1].owner == "Jessica Davis"
    && demo[2].owner == "Steven Thomas Williams" && demo[3].owner == "Sarah Smith"
    && demo[0].pin == 1111 && demo[1].pin == 2222 && demo[2].pin == 3333 && demo[3].pin == 4444
    && Sum(demo[0].movements) == 3840 && Sum(demo[1].movements) == 11720
    && Sum(demo[2].movements) == 10 && Sum(demo[3].movements) == 2270
    && demo[0].movements[0] == 200
    && |demo[1].movements| > 0 && demo[1].movements[0] == 5000
    && demo[0].dates.Some? && |demo[0].dates.value| == |demo[0].movements| && demo[0].currency.Some?
    && demo[1].dates.Some? && |demo[1].dates.value| == |demo[1].movements| && demo[1].currency.Some?
    && demo[2].dates.None? && demo[3].dates.None?
  }

  /** The declared demo accounts have that shape. */
  lemma DemoDeclared(demo: seq<Account>)
    requires demo == DemoAccounts()
    ensures DemoShape(demo)
  {
    JonasBalance(demo[0].movements);
    JessicaBalance(demo[1].movements);
    StevenBalance(demo[2].movements);
    SarahBalance(demo[3].movements);
  }

  /** The total of a five-movement history, term by term. */
  lemma SumOfFive(a: int, b: int, c: int, d: int, e: int)
    ensures Sum([a, b, c, d, e]) == a + b + c + d + e
  {
    var p: seq<int> := [];
    SumAppend(p, a);
    SumAppend([a], b);
    SumAppend([a, b], c);
    SumAppend([a, b, c], d);
    SumAppend([a, b, c, d], e);
    assert [a] == p + [a] && [a, b] == [a] + [b] && [a, b, c] == [a, b] + [c];
    assert [a, b, c, d] == [a, b, c] + [d] && [a, b, c, d, e] == [a, b, c, d] + [e];
  }

  /** The total of an eight-movement history, term by term. */
  lemma SumOfEight(a: int, b: int, c: int, d: int, e: int, f: int, g: int, h: int)
    ensures Sum([a, b, c, d, e, f, g, h]) == a + b + c + d + e + f + g + h
  {
    SumOfFive(a, b, c, d, e);
    var p := [a, b, c, d, e];
    SumAppend(p, f);
    SumAppend(p + [f], g);
    SumAppend(p + [f] + [g], h);
    assert [a, b, c, d, e, f, g, h] == p + [f] + [g] + [h];
  }

  lemma JonasBalance(m: seq<int>)
    requires m == [200, 450, -400, 3000, -650, -130, 70, 1300]
    ensures Sum(m) == 3840
  {
    SumOfEight(200, 450, -400, 3000, -650, -130, 70, 1300);
  }

  lemma JessicaBalance(m: seq<int>)
    requires m == [5000, 3400, -150, -790, -3210, -1000, 8500, -30]
    ensures Sum(m) == 11720
  {
    SumOfEight(5000, 3400, -150, -790, -3210, -1000, 8500, -30);
  }

  lemma StevenBalance(m: seq<int>)
    requires m == [200, -200, 340, -300, -20, 50, 400, -460]
    ensures Sum(m) == 10
  {
    SumOfEight(200, -200, 340, -300, -20, 50, 400, -460);
  }

  lemma SarahBalance(m: seq<int>)
    requires m == [430, 1000, 700, 50, 90]
    ensures Sum(m) == 2270
  {
    SumOfFive(430, 1000, 700, 50, 90);
  }
}
