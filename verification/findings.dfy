/** Runs of the handlers as written, from the loaded demo page, that end
    somewhere the page evidently should never get to: an overdrawn
    account, a loan paid into an account whose pin was not entered, a loan
    paid after the session ended, an account closed without its pin. */
module Findings {
  import opened Wrappers
  import opened Ledger
  import opened Accounts
  import opened LogoutTimer
  import opened Bankist
  import opened BankistFacts
  import opened Demo

  /** Logging in as "js" with pin 1111 on the loaded demo page. */
  lemma LoginAsJonas(demo: seq<Account>)
    requires DemoShape(demo)
    ensures var a0 := Loaded(demo); var a1 := Login(a0, "js", 1111);
      && LoginAccepted(a0, "js", 1111)
      && a1.current == Some(0) && a1.pending == []
      && a1.accounts == [0, 1, 2, 3]
      && a1.timer == Running(LogoutSeconds - 1)
      && a1.heap[0].cachedBalance == Some(3840) && Sum(a1.heap[0].movements) == 3840
      && a1.heap[0].movements == demo[0].movements
      && a1.heap[0].dates == demo[0].dates && a1.heap[0].currency.Some?
      && a1.heap[0].username == "js" && a1.heap[0].pin == 1111
      && a1.heap[1].username == "jd" && a1.heap[1].pin == 2222
      && a1.heap[1].movements == demo[1].movements && a1.heap[1].dates.Some?
      && a1.heap[2].username == "stw" && a1.heap[2].dates.None?
      && a1.heap[3].username == "ss"
      && |a1.heap| == 4 && UniqueNames(a1.heap, a1.accounts)
  {
    DemoLoaded(demo);
    var a0 := Loaded(demo);
    FindUnique(a0.heap, a0.accounts, 0);
    var a1 := Login(a0, "js", 1111);
    DistinctFour(a1.heap, a1.accounts);
  }

  /** Finding: a transfer to an account without a date list throws after
      the money has moved but before the sender's stored balance is
      recomputed, so the guard of the next transfer reads a balance the
      account no longer has. Jonas sends his whole 3840 to "stw" and then
      the same 3840 again to "jd", and ends 3840 in debt. */
  lemma OverdraftThroughUndatedRecipient(demo: seq<Account>, now: Timestamp)
    requires DemoShape(demo)
    ensures var a1 := Login(Loaded(demo), "js", 1111);
      var a2 := Transfer(a1, "stw", 3840, now);
      var a3 := Transfer(a2, "jd", 3840, now);
      && Sum(a2.heap[0].movements) == 0
      && a2.heap[0].cachedBalance == Some(3840)
      && TransferAccepted(a2, "jd", 3840)
      && Sum(a3.heap[0].movements) == -3840
  {
    LoginAsJonas(demo);
    Overdraft(Login(Loaded(demo), "js", 1111), now);
  }

  /** Jonas, logged in with a stored balance of 3840, can send 3840 to
      the undated "stw" account; his stored balance stays at 3840. */
  lemma Overdraft(a1: App, now: Timestamp)
    requires Valid(a1) && a1.accounts == [0, 1, 2, 3] && |a1.heap| == 4 && UniqueNames(a1.heap, a1.accounts)
    requires a1.current == Some(0)
    requires a1.heap[0].username == "js" && a1.heap[1].username == "jd"
    requires a1.heap[2].username == "stw" && a1.heap[3].username == "ss"
    requires a1.heap[0].cachedBalance == Some(3840) && Sum(a1.heap[0].movements) == 3840
    requires a1.heap[2].dates.None?
    ensures var a2 := Transfer(a1, "stw", 3840, now);
      var a3 := Transfer(a2, "jd", 3840, now);
      && Sum(a2.heap[0].movements) == 0
      && a2.heap[0].cachedBalance == Some(3840)
      && TransferAccepted(a2, "jd", 3840)
      && Sum(a3.heap[0].movements) == -3840
  {
    FindUnique(a1.heap, a1.accounts, 2);
    var a2 := Transfer(a1, "stw", 3840, now);
    TransferToStw(a1, now);
    TransferToJd(a2, now);
  }

  lemma TransferToStw(a1: App, now: Timestamp)
    requires Valid(a1) && a1.accounts == [0, 1, 2, 3] && |a1.heap| == 4
    requires a1.current == Some(0)
    requires Find(a1.heap, a1.accounts, "stw") == Some(2)
    requires a1.heap[0].username == "js" && a1.heap[2].username == "stw"
    requires a1.heap[0].cachedBalance == Some(3840) && Sum(a1.heap[0].movements) == 3840
    requires a1.heap[2].dates.None?
    ensures var a2 := Transfer(a1, "stw", 3840, now);
      && a2.accounts == a1.accounts && a2.current == a1.current && |a2.heap| == 4
      && (forall id :: 0 <= id < 4 ==> a2.heap[id].username == a1.heap[id].username)
      && Sum(a2.heap[0].movements) == 0
      && a2.heap[0].cachedBalance == Some(3840)
  {
    assert TransferAccepted(a1, "stw", 3840);
    TransferMovesMoney(a1, "stw", 3840, now);
    TransferHalfApplied(a1, "stw", 3840, now);
  }

  lemma TransferToJd(a2: App, now: Timestamp)
    requires Valid(a2) && a2.accounts == [0, 1, 2, 3] && |a2.heap| == 4 && UniqueNames(a2.heap, a2.accounts)
    requires a2.current == Some(0)
    requires a2.heap[0].username == "js" && a2.heap[1].username == "jd"
    requires a2.heap[0].cachedBalance == Some(3840) && Sum(a2.heap[0].movements) == 0
    ensures TransferAccepted(a2, "jd", 3840)
    ensures Sum(Transfer(a2, "jd", 3840, now).heap[0].movements) == -3840
  {
    assert TransferAccepted(a2, "jd", 3840) by {
      FindUnique(a2.heap, a2.accounts, 1);
    }
    TransferMovesMoney(a2, "jd", 3840, now);
  }

  /** Finding: a failed login still rebinds `currentAcc`. With Jonas logged
      in, a login attempt as "jd" with a wrong pin leaves Jonas's page on
      screen, and the next loan is paid into Jessica's account although her
      pin was never entered. */
  lemma FailedLoginRedirectsLoan(demo: seq<Account>, now: Timestamp)
    requires DemoShape(demo)
    ensures var a1 := Login(Loaded(demo), "js", 1111);
      var a2 := Login(a1, "jd", 0);
      var a4 := LoanDue(RequestLoan(a2, 100), now);
      && !LoginAccepted(a1, "jd", 0)
      && a2.current == Some(1) && a2.timer == a1.timer
      && a4.heap[1].movements == a1.heap[1].movements + [100]
  {
    LoginAsJonas(demo);
    LoanToJessica(Login(Loaded(demo), "js", 1111), now);
  }

  lemma LoanToJessica(a1: App, now: Timestamp)
    requires Valid(a1) && a1.accounts == [0, 1, 2, 3] && |a1.heap| == 4 && UniqueNames(a1.heap, a1.accounts)
    requires a1.pending == []
    requires a1.heap[1].username == "jd" && a1.heap[1].pin == 2222
    requires |a1.heap[1].movements| > 0 && a1.heap[1].movements[0] == 5000
    ensures var a2 := Login(a1, "jd", 0);
      var a4 := LoanDue(RequestLoan(a2, 100), now);
      && !LoginAccepted(a1, "jd", 0)
      && a2.current == Some(1) && a2.timer == a1.timer
      && a4.heap[1].movements == a1.heap[1].movements + [100]
  {
    FindUnique(a1.heap, a1.accounts, 1);
    var a2 := Login(a1, "jd", 0);
    assert LoanAccepted(a2, 100);
    var a3 := RequestLoan(a2, 100);
    LoanCreditsCurrent(a3, now);
  }

  /** Finding: the loan callback does not ask whether the session is still
      open. A loan requested in the last second of the countdown is paid
      after the page has logged out, and the payment even restarts the
      countdown. */
  lemma LoanCreditedAfterLogout(demo: seq<Account>, now: Timestamp)
    requires DemoShape(demo)
    ensures var a1 := Login(Loaded(demo), "js", 1111);
      var a3 := RequestLoan(Seconds(a1, LogoutSeconds - 1), 100);
      var a4 := Second(a3);
      var a5 := LoanDue(a4, now);
      && a3.pending == [100]
      && a4.timer == Stopped
      && a5.heap[0].movements == a1.heap[0].movements + [100]
      && a5.timer == Running(LogoutSeconds - 1)
  {
    LoginAsJonas(demo);
    LateLoan(Login(Loaded(demo), "js", 1111), now);
  }

  /** A loan of 100 requested with one second left on Jonas's countdown. */
  lemma LateLoan(a1: App, now: Timestamp)
    requires Valid(a1) && a1.current == Some(0) && a1.pending == []
    requires a1.timer == Running(LogoutSeconds - 1)
    requires |a1.heap[0].movements| > 0 && a1.heap[0].movements[0] == 200
    requires a1.heap[0].dates.Some? && a1.heap[0].currency.Some?
    requires |a1.heap[0].dates.value| == |a1.heap[0].movements|
    ensures var a3 := RequestLoan(Seconds(a1, LogoutSeconds - 1), 100);
      var a4 := Second(a3);
      var a5 := LoanDue(a4, now);
      && a3.pending == [100]
      && a4.timer == Stopped
      && a5.heap[0].movements == a1.heap[0].movements + [100]
      && a5.timer == Running(LogoutSeconds - 1)
  {
    SessionLastsLogoutSeconds(LogoutSeconds - 1);
    SessionLastsLogoutSeconds(LogoutSeconds);
    var a2 := Seconds(a1, LogoutSeconds - 1);
    assert a2.heap[0].movements[0] == 200;
    assert LoanAccepted(a2, 100);
    var a4 := Second(RequestLoan(a2, 100));
    assert Ticks(a1.timer, LogoutSeconds) == Tick(Ticks(a1.timer, LogoutSeconds - 1)) by {
      TicksSplit(a1.timer, LogoutSeconds - 1);
    }
    LoanCreditsCurrent(a4, now);
  }

  /** One more second after `n` seconds is `n + 1` seconds. */
  lemma {:induction false} TicksSplit(c: Clock, n: nat)
    ensures Ticks(c, n + 1) == Tick(Ticks(c, n))
    decreases n
  {
    if n > 0 {
      TicksSplit(Tick(c), n - 1);
    }
  }

  /** Finding: the close form stays usable after the account is closed,
      because `currentAcc` still points at it. Submitting Jonas's
      credentials a second time finds no "js" (-1), and `splice(-1, 1)`
      removes the last listed account, Sarah's, whose pin nobody entered. */
  lemma SecondCloseRemovesAnother(demo: seq<Account>)
    requires DemoShape(demo)
    ensures var a1 := Login(Loaded(demo), "js", 1111);
      var a2 := Close(a1, "js", 1111);
      var a3 := Close(a2, "js", 1111);
      && a2.accounts == [1, 2, 3]
      && CloseAccepted(a2, "js", 1111)
      && a3.accounts == [1, 2]
      && a1.heap[3].username == "ss"
  {
    LoginAsJonas(demo);
    CloseTwice(Login(Loaded(demo), "js", 1111));
  }

  lemma CloseTwice(a1: App)
    requires Valid(a1) && a1.accounts == [0, 1, 2, 3] && |a1.heap| == 4 && UniqueNames(a1.heap, a1.accounts)
    requires a1.current == Some(0) && a1.heap[0].username == "js" && a1.heap[0].pin == 1111
    ensures var a2 := Close(a1, "js", 1111);
      var a3 := Close(a2, "js", 1111);
      && a2.accounts == [1, 2, 3]
      && CloseAccepted(a2, "js", 1111)
      && a3.accounts == [1, 2]
  {
    FindUnique(a1.heap, a1.accounts, 0);
    var a2 := Close(a1, "js", 1111);
    assert a2.accounts == Splice1([0, 1, 2, 3], 0);
    ClosedIsUnlisted(a2);
    CloseUnlistedDropsLast(a2, "js", 1111);
  }

  /** Once Jonas's entry is spliced out, no listed account is called "js". */
  lemma ClosedIsUnlisted(a2: App)
    requires Valid(a2) && a2.accounts == Splice1([0, 1, 2, 3], 0) && |a2.heap| == 4
    requires UniqueNames(a2.heap, [0, 1, 2, 3]) && a2.heap[0].username == "js"
    ensures a2.accounts == [1, 2, 3]
    ensures forall k :: 0 <= k < |a2.accounts| ==> a2.heap[a2.accounts[k]].username != "js"
  {
    var ids: seq<ObjId> := [0, 1, 2, 3];
    assert a2.accounts == ids[1..];
    forall k | 0 <= k < |a2.accounts|
      ensures a2.heap[a2.accounts[k]].username != "js"
    {
      assert a2.accounts[k] == ids[k + 1];
      assert a2.heap[ids[0]].username != a2.heap[ids[k + 1]].username;
    }
  }
}
