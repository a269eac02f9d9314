/** The handlers as they are evidently meant to behave, over the same page
    state.
    Every operation needs an open session; the transfer guard reads the
    balance from the history; a failed login changes nothing; a transfer
    records both sides or neither; closing an account ends the session;
    and a session that ends takes its scheduled loans with it. */
module Intended {
  import opened Wrappers
  import opened Ledger
  import opened Accounts
  import opened LogoutTimer
  import Bankist

  type App = Bankist.App

  /** A session is open: someone is logged in and the countdown runs. */
  predicate Alive(app: App)
  {
    app.current.Some? && app.timer.Running?
  }

  /** An account that keeps dates keeps one per movement. */
  predicate Aligned(a: Account)
  {
    a.dates.Some? ==> |a.dates.value| == |a.movements|
  }

  /** What the intended handlers keep true at all times: usernames stay unique, a
      session exists exactly while its countdown runs and refers to a
      listed account, loans are only scheduled inside a session and for
      positive amounts, no balance is negative, and dates stay aligned
      with movements. */
  ghost predicate Sound(app: App)
  {
    && Bankist.Valid(app)
    && UniqueNames(app.heap, app.accounts)
    && (app.current.Some? <==> app.timer.Running?)
    && (app.current.Some? ==> app.current.value in app.accounts)
    && (app.current.None? ==> app.pending == [])
    && (forall k :: 0 <= k < |app.pending| ==> app.pending[k] > 0)
    && (forall id :: 0 <= id < |app.heap| ==> Sum(app.heap[id].movements) >= 0)
    && (forall id :: 0 <= id < |app.heap| ==> Aligned(app.heap[id]))
  }

  /** `login`: on success a new session on the found account with a fresh
      countdown, and the previous session's scheduled loans discarded; on
      failure nothing at all changes. */
  function Login(app: App, user: string, pin: int): (r: App)
    requires Bankist.Valid(app)
    ensures Bankist.Valid(r)
    ensures r.heap == app.heap && r.accounts == app.accounts
    ensures !Bankist.LoginAccepted(app, user, pin) ==> r == app
    ensures Bankist.LoginAccepted(app, user, pin) ==> Alive(r) && r.pending == []
    ensures Bankist.LoginAccepted(app, user, pin) ==>
      r.timer == Start() && r.current == Find(app.heap, app.accounts, user)
    ensures r.current != app.current ==>
      r.current.Some? && r.heap[r.current.value].username == user && r.heap[r.current.value].pin == pin
  {
    var found := Find(app.heap, app.accounts, user);
    if found.Some? && app.heap[found.value].pin == pin then
      app.(current := found, timer := Start(), pending := [])
    else app
  }

  /** The four transfer preconditions, read inside an open session, with
      the balance taken from the history. */
  predicate TransferAccepted(app: App, to: string, amount: int)
    requires Bankist.Valid(app)
  {
    var recipient := Find(app.heap, app.accounts, to);
    && Alive(app)
    && amount > 0
    && recipient.Some?
    && amount <= Sum(app.heap[app.current.value].movements)
    && app.heap[recipient.value].username != app.heap[app.current.value].username
  }

  /** `recordMovement`: the amount and, on an account that keeps dates, the
      timestamp, in one step. */
  function RecordMovement(a: Account, amount: int, now: Timestamp): (r: Account)
    ensures r.movements == a.movements + [amount]
    ensures Sum(r.movements) == Sum(a.movements) + amount
    ensures Aligned(a) ==> Aligned(r)
    ensures a.dates.Some? ==> r.dates == Some(a.dates.value + [now])
    ensures a.dates.None? ==> r.dates.None?
    ensures r.(movements := a.movements, dates := a.dates) == a
  {
    SumAppend(a.movements, amount);
    a.(movements := a.movements + [amount],
       dates := if a.dates.Some? then Some(a.dates.value + [now]) else a.dates)
  }

  /** `transfer`: both sides recorded together and the countdown restarted,
      or nothing at all. */
  function Transfer(app: App, to: string, amount: int, now: Timestamp): (r: App)
    requires Bankist.Valid(app)
    ensures Bankist.Valid(r)
    ensures r.accounts == app.accounts && r.current == app.current && r.pending == app.pending
    ensures |r.heap| == |app.heap|
    ensures !TransferAccepted(app, to, amount) ==> r == app
    ensures TransferAccepted(app, to, amount) ==> r.timer == Start()
  {
    if !TransferAccepted(app, to, amount) then app
    else
      var s, t := app.current.value, Find(app.heap, app.accounts, to).value;
      var heap := app.heap[s := RecordMovement(app.heap[s], -amount, now)];
      app.(heap := heap[t := RecordMovement(heap[t], amount, now)], timer := Start())
  }

  /** The loan request, accepted only inside an open session. */
  predicate LoanAccepted(app: App, amount: int)
    requires Bankist.Valid(app)
  {
    Alive(app) && amount > 0 && Bankist.Creditworthy(app.heap[app.current.value].movements, amount)
  }

  function RequestLoan(app: App, amount: int): (r: App)
    requires Bankist.Valid(app)
    ensures Bankist.Valid(r)
    ensures r.(pending := app.pending) == app
    ensures r.pending == if LoanAccepted(app, amount) then app.pending + [amount] else app.pending
  {
    if LoanAccepted(app, amount) then app.(pending := app.pending + [amount]) else app
  }

  /** The oldest scheduled loan completes: it is paid into the session's
      account and restarts the countdown while the session is open, and is
      discarded otherwise. */
  function LoanDue(app: App, now: Timestamp): (r: App)
    requires Bankist.Valid(app)
    ensures Bankist.Valid(r)
    ensures r.accounts == app.accounts && r.current == app.current && |r.heap| == |app.heap|
    ensures |app.pending| == 0 ==> r == app
    ensures |app.pending| > 0 ==> r.pending == app.pending[1..]
    ensures !Alive(app) ==> r.heap == app.heap && r.timer == app.timer
    ensures |app.pending| > 0 && Alive(app) ==>
      var c := app.current.value;
      r.heap == app.heap[c := RecordMovement(app.heap[c], app.pending[0], now)] && r.timer == Start()
  {
    if |app.pending| == 0 then app
    else
      var rest := app.(pending := app.pending[1..]);
      if !Alive(app) then rest
      else
        var c := app.current.value;
        rest.(heap := app.heap[c := RecordMovement(app.heap[c], app.pending[0], now)], timer := Start())
  }

  /** The close form, accepted only for the credentials of the session's
      own account. */
  predicate CloseAccepted(app: App, user: string, pin: int)
    requires Bankist.Valid(app)
  {
    && Alive(app)
    && user == app.heap[app.current.value].username
    && pin == app.heap[app.current.value].pin
  }

  /** `closeAccount`: the account leaves the directory and the session ends. */
  function Close(app: App, user: string, pin: int): (r: App)
    requires Bankist.Valid(app)
    ensures Bankist.Valid(r)
    ensures r.heap == app.heap
    ensures !CloseAccepted(app, user, pin) ==> r == app
    ensures CloseAccepted(app, user, pin) ==>
      && r.accounts == Remove(app.heap, app.accounts, user)
      && !Alive(r) && r.current.None? && r.pending == []
  {
    if CloseAccepted(app, user, pin) then
      Bankist.App(app.heap, Remove(app.heap, app.accounts, user), None, Stopped, [])
    else app
  }

  /** One second of the countdown; when it runs out the session ends and
      its scheduled loans go with it. */
  function Second(app: App): (r: App)
    ensures r.heap == app.heap && r.accounts == app.accounts
    ensures r.timer == Tick(app.timer)
    ensures r.timer.Running? ==> r.current == app.current && r.pending == app.pending
    ensures r.timer.Stopped? ==> r.current.None? && r.pending == []
  {
    var t := Tick(app.timer);
    if t.Stopped? then app.(timer := Stopped, current := None, pending := []) else app.(timer := t)
  }

  function Seconds(app: App, n: nat): (r: App)
    ensures r.heap == app.heap && r.accounts == app.accounts
    ensures r.current.Some? ==> r.current == app.current
    ensures r.timer == Ticks(app.timer, n)
    decreases n
  {
    if n == 0 then app else Seconds(Second(app), n - 1)
  }

  function Step(app: App, e: Bankist.Event): (r: App)
    requires Bankist.Valid(app)
    ensures Bankist.Valid(r)
  {
    match e
    case LoginClicked(user, pin) => Login(app, user, pin)
    case TransferClicked(to, amount, now) => Transfer(app, to, amount, now)
    case CloseClicked(user, pin) => Close(app, user, pin)
    case LoanClicked(amount) => RequestLoan(app, amount)
    case LoanTimeout(now) => LoanDue(app, now)
    case IntervalTick => Second(app)
  }

  function Run(app: App, events: seq<Bankist.Event>): (r: App)
    requires Bankist.Valid(app)
    ensures Bankist.Valid(r)
    decreases |events|
  {
    if |events| == 0 then app else Run(Step(app, events[0]), events[1..])
  }
}
