/** What the handlers of script.js, as written, do to the page's state. */
module BankistFacts {
  import opened Wrappers
  import opened Ledger
  import opened Accounts
  import opened LogoutTimer
  import opened Bankist

  /** The stored `balance` of the current account is the sum of its history. */
  ghost predicate CacheFresh(app: App)
    requires Valid(app)
  {
    app.current.Some? ==>
      app.heap[app.current.value].cachedBalance == Some(Sum(app.heap[app.current.value].movements))
  }

  /** While the stored balance is fresh, the transfer guard is the intended
      one: a positive amount, an existing recipient other than
      the sender, and no more than the sender's balance. */
  lemma GuardReadsBalance(app: App, to: string, amount: int)
    requires Valid(app) && CacheFresh(app)
    ensures TransferAccepted(app, to, amount) <==>
      var recipient := Find(app.heap, app.accounts, to);
      && amount > 0
      && recipient.Some?
      && app.current.Some?
      && amount <= Sum(app.heap[app.current.value].movements)
      && app.heap[recipient.value].username != app.heap[app.current.value].username
  {
  }

  /** A successful login on an account with a history leaves the balance
      fresh and a countdown of 299 seconds running. */
  lemma LoginRefreshesBalance(app: App, user: string, pin: int)
    requires Valid(app) && LoginAccepted(app, user, pin)
    requires |app.heap[Find(app.heap, app.accounts, user).value].movements| > 0
    ensures var r := Login(app, user, pin);
      && CacheFresh(r)
      && r.current == Find(app.heap, app.accounts, user)
      && r.timer == Running(LogoutSeconds - 1)
  {
  }

  /** After a successful login and `n` quiet seconds the session is still
      running exactly while fewer than 300 seconds have passed. */
  lemma LoginSessionLength(app: App, user: string, pin: int, n: nat)
    requires Valid(app) && LoginAccepted(app, user, pin)
    ensures Seconds(Login(app, user, pin), n).timer.Running? <==> n < LogoutSeconds
    ensures Seconds(Login(app, user, pin), n).current == Find(app.heap, app.accounts, user)
  {
    SessionLastsLogoutSeconds(n);
  }

  /** An accepted transfer moves the amount from the sender's history to the
      recipient's, whatever happens to the dates afterwards; no other
      account object changes. */
  lemma TransferMovesMoney(app: App, to: string, amount: int, now: Timestamp)
    requires Valid(app) && TransferAccepted(app, to, amount)
    ensures var s, t, r := app.current.value, Find(app.heap, app.accounts, to).value, Transfer(app, to, amount, now);
      && s != t
      && |r.heap| == |app.heap|
      && r.heap[s].movements == app.heap[s].movements + [-amount]
      && r.heap[t].movements == app.heap[t].movements + [amount]
      && Sum(r.heap[s].movements) == Sum(app.heap[s].movements) - amount
      && Sum(r.heap[t].movements) == Sum(app.heap[t].movements) + amount
      && (forall id :: 0 <= id < |app.heap| && id != s && id != t ==> r.heap[id] == app.heap[id])
      && r.heap[s] == app.heap[s].(movements := r.heap[s].movements, dates := r.heap[s].dates, cachedBalance := r.heap[s].cachedBalance)
      && r.heap[t] == app.heap[t].(movements := r.heap[t].movements, dates := r.heap[t].dates)
      && forall id :: 0 <= id < |app.heap| ==> SameHolder(app.heap[id], r.heap[id])
  {
    var s, t := app.current.value, Find(app.heap, app.accounts, to).value;
    assert s != t by {
      assert app.heap[t].username != app.heap[s].username;
    }
    var h1 := app.heap[s := Record(app.heap[s], -amount)];
    var h2 := h1[t := Record(h1[t], amount)];
    assert h2[s].movements == app.heap[s].movements + [-amount];
    assert h2[t].movements == app.heap[t].movements + [amount];
    BookkeepingAfterPushes(app, to, amount, now, h2);
    SumAppend(app.heap[s].movements, -amount);
    SumAppend(app.heap[t].movements, amount);
  }

  /** After both pushes, the rest of the transfer handler only writes dates
      and the stored balance of the two accounts involved. */
  lemma BookkeepingAfterPushes(app: App, to: string, amount: int, now: Timestamp, h2: seq<Account>)
    requires Valid(app) && TransferAccepted(app, to, amount)
    requires var s, t := app.current.value, Find(app.heap, app.accounts, to).value;
      s != t && h2 == app.heap[s := Record(app.heap[s], -amount)][t := Record(app.heap[t], amount)]
    ensures var s, t, r := app.current.value, Find(app.heap, app.accounts, to).value, Transfer(app, to, amount, now);
      && OnlyBookkeeping(h2, r.heap, s, t)
  {
    var s, t := app.current.value, Find(app.heap, app.accounts, to).value;
    var r := Transfer(app, to, amount, now);
    match RecordDate(h2[s], now)
    case None =>
      assert r.heap == h2;
    case Some(sender) =>
      var h3 := h2[s := sender];
      match RecordDate(h3[t], now)
      case None =>
        assert r.heap == h3;
      case Some(recipient) =>
        var h4 := h3[t := recipient];
        assert r.heap == h4[s := RefreshBalance(h4[s])];
  }

  /** `after` differs from `before` at most in the dates of the objects `s`
      and `t` and in the stored balance of `s`. */
  ghost predicate OnlyBookkeeping(before: seq<Account>, after: seq<Account>, s: ObjId, t: ObjId)
  {
    && |after| == |before| && s < |before| && t < |before|
    && (forall id :: 0 <= id < |before| && id != s && id != t ==> after[id] == before[id])
    && after[s] == before[s].(dates := after[s].dates, cachedBalance := after[s].cachedBalance)
    && after[t] == before[t].(dates := after[t].dates)
  }

  /** Whatever happens to the dates, an accepted transfer neither creates
      nor destroys money: the holdings across all account objects stay
      the same. */
  lemma TransferConservesMoney(app: App, to: string, amount: int, now: Timestamp)
    requires Valid(app)
    ensures Holdings(Transfer(app, to, amount, now).heap) == Holdings(app.heap)
  {
    if TransferAccepted(app, to, amount) {
      TransferMovesMoney(app, to, amount, now);
      var s, t := app.current.value, Find(app.heap, app.accounts, to).value;
      HoldingsExchange(app.heap, Transfer(app, to, amount, now).heap, s, t);
    }
  }

  /** When both accounts have date lists the transfer runs to its end: each
      side gets the date, the sender's balance is recomputed, and the
      countdown restarts if the sender's page can be redrawn. */
  lemma TransferCompletes(app: App, to: string, amount: int, now: Timestamp)
    requires Valid(app) && TransferAccepted(app, to, amount)
    requires app.heap[app.current.value].dates.Some?
    requires app.heap[Find(app.heap, app.accounts, to).value].dates.Some?
    ensures var s, t, r := app.current.value, Find(app.heap, app.accounts, to).value, Transfer(app, to, amount, now);
      && r.heap[s].dates == Some(app.heap[s].dates.value + [now])
      && r.heap[t].dates == Some(app.heap[t].dates.value + [now])
      && r.heap[s].cachedBalance == Some(Sum(r.heap[s].movements))
      && CacheFresh(r)
      && r.heap[s] == app.heap[s].(movements := r.heap[s].movements, dates := r.heap[s].dates, cachedBalance := r.heap[s].cachedBalance)
      && r.heap[t] == app.heap[t].(movements := r.heap[t].movements, dates := r.heap[t].dates)
      && r.timer == if UpdateUICompletes(r.heap[s]) then Start() else app.timer
  {
    TransferMovesMoney(app, to, amount, now);
  }

  /** When either account lacks a date list the handler throws part-way:
      the money has moved (see `TransferMovesMoney`) but the sender's stored
      balance is the old one, the recipient's dates are untouched and the
      countdown is not restarted. */
  lemma TransferHalfApplied(app: App, to: string, amount: int, now: Timestamp)
    requires Valid(app) && TransferAccepted(app, to, amount)
    requires app.heap[app.current.value].dates.None? || app.heap[Find(app.heap, app.accounts, to).value].dates.None?
    ensures var s, t, r := app.current.value, Find(app.heap, app.accounts, to).value, Transfer(app, to, amount, now);
      && r.heap[s].cachedBalance == app.heap[s].cachedBalance
      && r.heap[s].dates == (if app.heap[s].dates.Some? then Some(app.heap[s].dates.value + [now]) else None)
      && r.heap[t].dates == app.heap[t].dates
      && r.heap[s] == app.heap[s].(movements := r.heap[s].movements, dates := r.heap[s].dates, cachedBalance := r.heap[s].cachedBalance)
      && r.heap[t] == app.heap[t].(movements := r.heap[t].movements, dates := r.heap[t].dates)
      && r.timer == app.timer
  {
    TransferMovesMoney(app, to, amount, now);
  }

  /** The loan callback credits the account `currentAcc` points at when it
      fires, whether or not the countdown is still running. */
  lemma LoanCreditsCurrent(app: App, now: Timestamp)
    requires Valid(app) && |app.pending| > 0 && app.current.Some?
    ensures var c, r := app.current.value, LoanDue(app, now);
      && |r.heap| == |app.heap|
      && r.heap[c].movements == app.heap[c].movements + [app.pending[0]]
      && Sum(r.heap[c].movements) == Sum(app.heap[c].movements) + app.pending[0]
      && r.heap[c].dates == (if app.heap[c].dates.Some? then Some(app.heap[c].dates.value + [now]) else None)
      && (forall id :: 0 <= id < |app.heap| && id != c ==> r.heap[id] == app.heap[id])
      && SameHolder(app.heap[c], r.heap[c])
      && r.heap[c] == app.heap[c].(movements := r.heap[c].movements, dates := r.heap[c].dates, cachedBalance := r.heap[c].cachedBalance)
      && r.heap[c].cachedBalance == (if app.heap[c].dates.Some? then Some(Sum(r.heap[c].movements)) else app.heap[c].cachedBalance)
      && r.timer == if UpdateUICompletes(r.heap[c]) then Start() else app.timer
  {
    SumAppend(app.heap[app.current.value].movements, app.pending[0]);
  }

  /** With nobody bound to `currentAcc` the callback throws and the loan is lost. */
  lemma LoanWithoutAccount(app: App, now: Timestamp)
    requires Valid(app) && |app.pending| > 0 && app.current.None?
    ensures LoanDue(app, now) == app.(pending := app.pending[1..])
  {
  }

  /** Closing the logged-in account while it is still listed removes exactly
      that entry: the result is the intended removal by username. */
  lemma CloseRemovesCurrent(app: App, user: string, pin: int)
    requires Valid(app) && UniqueNames(app.heap, app.accounts)
    requires CloseAccepted(app, user, pin) && app.current.value in app.accounts
    ensures var r := Close(app, user, pin);
      && r.accounts == Remove(app.heap, app.accounts, user)
      && forall id :: id in r.accounts <==> id in app.accounts && id != app.current.value
  {
    var c := app.current.value;
    var j :| 0 <= j < |app.accounts| && app.accounts[j] == c;
    var k := FindIndex(app.heap, app.accounts, user);
    assert app.heap[app.accounts[j]].username == user;
    assert 0 <= k <= j;
    assert k == j;
    RemoveAtKeepsOthers(app.heap, app.accounts, k);
    forall id | id in app.accounts && id != c
      ensures app.heap[id].username != user
    {
      var i :| 0 <= i < |app.accounts| && app.accounts[i] == id;
      assert i != j;
    }
  }

  /** Closing an account whose username is no longer listed (it was closed
      before, and `currentAcc` still points at it) removes the LAST listed
      account instead. */
  lemma CloseUnlistedDropsLast(app: App, user: string, pin: int)
    requires Valid(app) && CloseAccepted(app, user, pin) && |app.accounts| > 0
    requires forall k :: 0 <= k < |app.accounts| ==> app.heap[app.accounts[k]].username != user
    ensures Close(app, user, pin).accounts == app.accounts[..|app.accounts| - 1]
  {
    SpliceMissingDropsLast(app.heap, app.accounts, user);
  }

  /** The same owner, username and pin. */
  predicate SameHolder(a: Account, b: Account)
  {
    a.owner == b.owner && a.username == b.username && a.pin == b.pin
  }

  /** `later` grew out of `app`: no account object appeared or vanished, no
      movement or date was taken back, no name or pin changed, and no
      account was added to the list. */
  ghost predicate Extends(app: App, later: App)
  {
    && |later.heap| == |app.heap|
    && (forall id :: 0 <= id < |app.heap| ==>
          && app.heap[id].movements <= later.heap[id].movements
          && SameHolder(app.heap[id], later.heap[id]))
    && (forall id :: id in later.accounts ==> id in app.accounts)
  }

  lemma StepExtends(app: App, e: Event)
    requires Valid(app)
    ensures Extends(app, Step(app, e))
  {
    match e
    case TransferClicked(to, amount, now) => TransferExtends(app, to, amount, now);
    case LoanTimeout(now) => LoanDueExtends(app, now);
    case _ =>
  }

  lemma TransferExtends(app: App, to: string, amount: int, now: Timestamp)
    requires Valid(app)
    ensures Extends(app, Transfer(app, to, amount, now))
  {
    if TransferAccepted(app, to, amount) {
      TransferMovesMoney(app, to, amount, now);
    }
  }

  lemma LoanDueExtends(app: App, now: Timestamp)
    requires Valid(app)
    ensures Extends(app, LoanDue(app, now))
  {
    if |app.pending| > 0 && app.current.Some? {
      LoanCreditsCurrent(app, now);
    }
  }

  /** Histories only grow: whatever the events, every movement an account
      had is still there, in place, and no account joins the list. */
  lemma {:induction false} RunExtends(app: App, events: seq<Event>)
    requires Valid(app)
    ensures Extends(app, Run(app, events))
    decreases |events|
  {
    if |events| > 0 {
      var next := Step(app, events[0]);
      StepExtends(app, events[0]);
      RunExtends(next, events[1..]);
      var r := Run(app, events);
      forall id | 0 <= id < |app.heap|
        ensures app.heap[id].movements <= r.heap[id].movements
      {
        PrefixTransitive(app.heap[id].movements, next.heap[id].movements, r.heap[id].movements);
      }
    }
  }

  lemma PrefixTransitive(a: seq<int>, b: seq<int>, c: seq<int>)
    requires a <= b && b <= c
    ensures a <= c
  {
    assert a == b[..|a|];
    assert b == c[..|b|];
  }
}
