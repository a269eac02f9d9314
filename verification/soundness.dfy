/** The corrected handlers keep their invariant: every event
    preserves `Sound`, the loaded demo page is sound, so no run of events
    ever overdraws an account, breaks the date alignment, pays a loan
    outside a session or removes an account other than the one closed. */
module Soundness {
  import opened Wrappers
  import opened Ledger
  import opened Accounts
  import opened LogoutTimer
  import Bankist
  import opened Demo
  import opened Intended

  /** Uniqueness of usernames depends on nothing but the usernames. */
  lemma SameNamesStayUnique(h1: seq<Account>, h2: seq<Account>, ids: seq<ObjId>)
    requires IdsIn(h1, ids) && UniqueNames(h1, ids) && |h2| == |h1|
    requires forall id :: 0 <= id < |h1| ==> h2[id].username == h1[id].username
    ensures IdsIn(h2, ids) && UniqueNames(h2, ids)
  {
  }

  lemma LoginKeepsSound(app: App, user: string, pin: int)
    requires Sound(app)
    ensures Sound(Login(app, user, pin))
  {
  }

  /** A transfer inside the intended guard records the amount on both
      sides, together with the date wherever the account keeps dates;
      no other account changes and no money is created or destroyed. */
  lemma TransferRecordsBothSides(app: App, to: string, amount: int, now: Timestamp)
    requires Bankist.Valid(app) && TransferAccepted(app, to, amount)
    ensures var s, t, r := app.current.value, Find(app.heap, app.accounts, to).value, Transfer(app, to, amount, now);
      && s != t
      && r.heap[s] == RecordMovement(app.heap[s], -amount, now)
      && r.heap[t] == RecordMovement(app.heap[t], amount, now)
      && Sum(r.heap[s].movements) >= 0
      && (forall id :: 0 <= id < |app.heap| && id != s && id != t ==> r.heap[id] == app.heap[id])
      && Holdings(r.heap) == Holdings(app.heap)
  {
    var s, t, r := app.current.value, Find(app.heap, app.accounts, to).value, Transfer(app, to, amount, now);
    assert s != t by {
      assert app.heap[t].username != app.heap[s].username;
    }
    HoldingsExchange(app.heap, r.heap, s, t);
  }

  lemma TransferKeepsSound(app: App, to: string, amount: int, now: Timestamp)
    requires Sound(app)
    ensures Sound(Transfer(app, to, amount, now))
  {
    if TransferAccepted(app, to, amount) {
      TransferRecordsBothSides(app, to, amount, now);
      var r := Transfer(app, to, amount, now);
      SameNamesStayUnique(app.heap, r.heap, app.accounts);
    }
  }

  lemma RequestLoanKeepsSound(app: App, amount: int)
    requires Sound(app)
    ensures Sound(RequestLoan(app, amount))
  {
    var r := RequestLoan(app, amount);
    assert forall k :: 0 <= k < |r.pending| ==> r.pending[k] > 0 by {
      if LoanAccepted(app, amount) {
        assert forall k :: 0 <= k < |app.pending| ==> r.pending[k] == app.pending[k];
      }
    }
  }

  lemma LoanDueKeepsSound(app: App, now: Timestamp)
    requires Sound(app)
    ensures Sound(LoanDue(app, now))
  {
    var r := LoanDue(app, now);
    if |app.pending| > 0 && Alive(app) {
      var c := app.current.value;
      assert r.heap == app.heap[c := RecordMovement(app.heap[c], app.pending[0], now)];
      CreditKeepsBalances(app.heap, c, app.pending[0], now);
      SameNamesStayUnique(app.heap, r.heap, app.accounts);
    }
  }

  /** Crediting a positive amount to one account keeps every balance
      non-negative, every date list aligned and every username. */
  lemma CreditKeepsBalances(heap: seq<Account>, c: ObjId, amount: int, now: Timestamp)
    requires c < |heap| && amount > 0
    requires forall id :: 0 <= id < |heap| ==> Sum(heap[id].movements) >= 0 && Aligned(heap[id])
    ensures var h := heap[c := RecordMovement(heap[c], amount, now)];
      && (forall id :: 0 <= id < |h| ==> Sum(h[id].movements) >= 0 && Aligned(h[id]))
      && (forall id :: 0 <= id < |heap| ==> h[id].username == heap[id].username)
  {
  }

  lemma CloseKeepsSound(app: App, user: string, pin: int)
    requires Sound(app)
    ensures Sound(Close(app, user, pin))
  {
  }

  lemma SecondKeepsSound(app: App)
    requires Sound(app)
    ensures Sound(Second(app))
  {
  }

  lemma StepKeepsSound(app: App, e: Bankist.Event)
    requires Sound(app)
    ensures Sound(Step(app, e))
  {
    match e
    case LoginClicked(user, pin) => LoginKeepsSound(app, user, pin);
    case TransferClicked(to, amount, now) => TransferKeepsSound(app, to, amount, now);
    case CloseClicked(user, pin) => CloseKeepsSound(app, user, pin);
    case LoanClicked(amount) => RequestLoanKeepsSound(app, amount);
    case LoanTimeout(now) => LoanDueKeepsSound(app, now);
    case IntervalTick => SecondKeepsSound(app);
  }

  /** Every run of events from a sound page ends on a sound page. */
  lemma {:induction false} RunKeepsSound(app: App, events: seq<Bankist.Event>)
    requires Sound(app)
    ensures Sound(Run(app, events))
    decreases |events|
  {
    if |events| > 0 {
      StepKeepsSound(app, events[0]);
      RunKeepsSound(Step(app, events[0]), events[1..]);
    }
  }

  /** The freshly loaded demo page is sound. */
  lemma LoadedIsSound(demo: seq<Account>)
    requires DemoShape(demo)
    ensures Sound(Bankist.Loaded(demo))
  {
    DemoLoaded(demo);
    var app := Bankist.Loaded(demo);
    SameHistories(demo, app.heap);
    FourAccountsSound(app);
  }

  /** `createUsernames` leaves histories and dates as declared. */
  lemma SameHistories(demo: seq<Account>, heap: seq<Account>)
    requires |demo| == |heap|
    requires forall k :: 0 <= k < |demo| ==> heap[k].(username := demo[k].username) == demo[k]
    ensures forall k :: 0 <= k < |demo| ==> heap[k].movements == demo[k].movements && heap[k].dates == demo[k].dates
  {
    forall k | 0 <= k < |demo|
      ensures heap[k].movements == demo[k].movements && heap[k].dates == demo[k].dates
    {
      assert heap[k].(username := demo[k].username).movements == heap[k].movements;
    }
  }

  lemma FourAccountsSound(app: App)
    requires Bankist.Valid(app) && UniqueNames(app.heap, app.accounts) && |app.heap| == 4
    requires app.current.None? && app.timer.Stopped? && app.pending == []
    requires Sum(app.heap[0].movements) >= 0 && Sum(app.heap[1].movements) >= 0
    requires Sum(app.heap[2].movements) >= 0 && Sum(app.heap[3].movements) >= 0
    requires Aligned(app.heap[0]) && Aligned(app.heap[1]) && Aligned(app.heap[2]) && Aligned(app.heap[3])
    ensures Sound(app)
  {
    forall id | 0 <= id < |app.heap|
      ensures Sum(app.heap[id].movements) >= 0 && Aligned(app.heap[id])
    {
      assert id == 0 || id == 1 || id == 2 || id == 3;
    }
  }

  /** Whatever the user does, starting from the demo page no account is
      ever overdrawn and every dated account keeps one date per movement. */
  lemma DemoNeverOverdrawn(demo: seq<Account>, events: seq<Bankist.Event>)
    requires DemoShape(demo)
    ensures var r := Run(Bankist.Loaded(demo), events);
      && (forall id :: 0 <= id < |r.heap| ==> Sum(r.heap[id].movements) >= 0)
      && (forall id :: 0 <= id < |r.heap| ==> Aligned(r.heap[id]))
  {
    LoadedIsSound(demo);
    RunKeepsSound(Bankist.Loaded(demo), events);
  }

  /** `n` seconds that end on a stopped countdown end the session and
      drop every scheduled loan. */
  lemma {:induction false} SecondsEndSession(app: App, n: nat)
    requires n > 0 && Ticks(app.timer, n).Stopped?
    ensures Seconds(app, n).current.None? && Seconds(app, n).pending == []
    decreases n
  {
    if n > 1 {
      SecondsEndSession(Second(app), n - 1);
    }
  }

  /** A loan requested inside a session that then times out is never paid:
      once the countdown has run out nothing is scheduled, and a late
      completion leaves every history as it was. */
  lemma LoanCancelledAtTimeout(app: App, amount: int, now: Timestamp)
    requires Sound(app) && Alive(app)
    ensures var a := Seconds(RequestLoan(app, amount), app.timer.time + 1);
      && a.current.None? && !Alive(a) && a.pending == []
      && LoanDue(a, now).heap == app.heap
  {
    var a0 := RequestLoan(app, amount);
    SecondsEndSession(a0, app.timer.time + 1);
  }

  /** Closing removes exactly the session's own account, and a second
      submission of the same form changes nothing. */
  lemma CloseRemovesOnlyOwnAccount(app: App, user: string, pin: int)
    requires Sound(app) && CloseAccepted(app, user, pin)
    ensures var r := Close(app, user, pin);
      && (forall id :: id in r.accounts <==> id in app.accounts && id != app.current.value)
      && Close(r, user, pin) == r
  {
    var c := app.current.value;
    forall id | id in app.accounts && id != c
      ensures app.heap[id].username != user
    {
      var i :| 0 <= i < |app.accounts| && app.accounts[i] == id;
      var j :| 0 <= j < |app.accounts| && app.accounts[j] == c;
      assert i != j;
    }
  }
}
