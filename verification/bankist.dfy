/** The page's state and its event handlers as script.js writes them:
    login, transfer, close account, loan request, loan completion and the
    countdown tick. Each handler is a function from state to state; where the
    handler throws part-way, the result is the state at the throw. */
module Bankist {
  import opened Wrappers
  import opened Ledger
  import opened Accounts
  import opened LogoutTimer

  /** The script's globals. `heap` holds every account object the page
      created, by identity; `accounts` is the `accounts` array; `current` is
      `currentAcc`; `timer` is the logout interval; `pending` lists the loan
      amounts whose `setTimeout` callback has not fired yet, oldest first. */
  datatype App = App(
    heap: seq<Account>,
    accounts: seq<ObjId>,
    current: Option<ObjId>,
    timer: Clock,
    pending: seq<int>)

  /** Every reference the page holds points at an object it created. */
  ghost predicate Valid(app: App)
  {
    && IdsIn(app.heap, app.accounts)
    && (app.current.Some? ==> app.current.value < |app.heap|)
  }

  /** `updateUI(acc)` as far as state goes: `calcBalance` stores the balance
      on the object unless `reduce` throws on an empty history. */
  function RefreshBalance(a: Account): (r: Account)
    ensures r.(cachedBalance := a.cachedBalance) == a
    ensures |a.movements| > 0 ==> r.cachedBalance == CalcBalance(a.movements)
    ensures |a.movements| == 0 ==> r == a
  {
    if |a.movements| == 0 then a else a.(cachedBalance := Some(Sum(a.movements)))
  }

  /** `updateUI(acc)` runs to its end: the history is not empty, the account
      has a currency for `Intl.NumberFormat`, and every movement has a date
      for `displayMovements`. Otherwise it throws, and the handler that
      called it stops there. */
  predicate UpdateUICompletes(a: Account)
    ensures UpdateUICompletes(a) <==>
      CalcBalance(a.movements).Some? && a.currency.Some? && a.dates.Some? && |a.dates.value| >= |a.movements|
    ensures UpdateUICompletes(a) ==> RefreshBalance(a).cachedBalance == CalcBalance(a.movements)
  {
    && |a.movements| > 0
    && a.currency.Some?
    && a.dates.Some?
    && |a.movements| <= |a.dates.value|
  }

  /** A login is accepted when the FIRST listed account with that username
      has that pin; a later account with the same username never logs in. */
  predicate LoginAccepted(app: App, user: string, pin: int)
    requires Valid(app)
    ensures LoginAccepted(app, user, pin) <==>
      var k := FindIndex(app.heap, app.accounts, user);
      k >= 0 && app.heap[app.accounts[k]].pin == pin
  {
    var found := Find(app.heap, app.accounts, user);
    found.Some? && app.heap[found.value].pin == pin
  }

  /** The login button. `currentAcc` is overwritten with the lookup result
      before the pin is checked, so a failed login still changes it. On
      success the old interval is cleared, a fresh countdown starts and the
      account's balance is recomputed. */
  function Login(app: App, user: string, pin: int): (r: App)
    requires Valid(app)
    ensures Valid(r)
    ensures r.current == Find(app.heap, app.accounts, user)
    ensures r.accounts == app.accounts && r.pending == app.pending
    ensures LoginAccepted(app, user, pin) ==> r.timer == Start()
    ensures LoginAccepted(app, user, pin) ==>
      var id := r.current.value;
      r.heap == app.heap[id := RefreshBalance(app.heap[id])]
    ensures !LoginAccepted(app, user, pin) ==> r.heap == app.heap && r.timer == app.timer
  {
    var found := Find(app.heap, app.accounts, user);
    if found.Some? && app.heap[found.value].pin == pin then
      var id := found.value;
      App(app.heap[id := RefreshBalance(app.heap[id])], app.accounts, found, Start(), app.pending)
    else
      app.(current := found)
  }

  /** The transfer guard, read from the cached `balance` property: a positive
      amount, a recipient that exists, an amount not above the sender's
      stored balance, and a recipient other than the sender. A guard that
      would read a property of an undefined `currentAcc` throws instead,
      which likewise leaves the state alone. */
  predicate TransferAccepted(app: App, to: string, amount: int)
    requires Valid(app)
    ensures TransferAccepted(app, to, amount) <==>
      && amount > 0
      && app.current.Some?
      && (exists k :: 0 <= k < |app.accounts| && app.heap[app.accounts[k]].username == to)
      && to != app.heap[app.current.value].username
      && app.heap[app.current.value].cachedBalance.Some?
      && amount <= app.heap[app.current.value].cachedBalance.value
  {
    var recipient := Find(app.heap, app.accounts, to);
    && amount > 0
    && recipient.Some?
    && app.current.Some?
    && var sender := app.heap[app.current.value];
    && sender.cachedBalance.Some?
    && amount <= sender.cachedBalance.value
    && app.heap[recipient.value].username != sender.username
  }

  /** Appends a movement to an account object (`movements.push`). */
  function Record(a: Account, amount: int): (r: Account)
    ensures r.movements == a.movements + [amount]
    ensures r.(movements := a.movements) == a
  {
    a.(movements := a.movements + [amount])
  }

  /** Appends a date (`movementsDates.push`); `None` when the object has no
      date list, where the push throws a TypeError. */
  function RecordDate(a: Account, now: Timestamp): (r: Option<Account>)
    ensures r.None? <==> a.dates.None?
    ensures r.Some? ==> r.value.dates == Some(a.dates.value + [now])
    ensures r.Some? ==> r.value.(dates := a.dates) == a
  {
    if a.dates.None? then None else Some(a.(dates := Some(a.dates.value + [now])))
  }

  /** The end of the transfer and loan handlers: `updateUI` on the current
      account, then, if that did not throw, a fresh countdown. */
  function FinishWithUpdate(app: App, id: ObjId): (r: App)
    requires Valid(app) && id < |app.heap|
    ensures Valid(r)
    ensures r.heap == app.heap[id := RefreshBalance(app.heap[id])]
    ensures r.accounts == app.accounts && r.current == app.current && r.pending == app.pending
    ensures r.timer == if UpdateUICompletes(app.heap[id]) then Start() else app.timer
  {
    var heap := app.heap[id := RefreshBalance(app.heap[id])];
    if UpdateUICompletes(app.heap[id]) then app.(heap := heap, timer := Start())
    else app.(heap := heap)
  }

  /** The transfer button. Both movements are pushed first; then the
      sender's date and the recipient's date, each of which throws on an
      object without a date list; then `updateUI` on the sender and the
      countdown reset. */
  function Transfer(app: App, to: string, amount: int, now: Timestamp): (r: App)
    requires Valid(app)
    ensures Valid(r)
    ensures r.accounts == app.accounts && r.current == app.current && r.pending == app.pending
    ensures !TransferAccepted(app, to, amount) ==> r == app
  {
    if !TransferAccepted(app, to, amount) then app
    else
      var s := app.current.value;
      var t := Find(app.heap, app.accounts, to).value;
      var heap := app.heap[s := Record(app.heap[s], -amount)];
      var heap := heap[t := Record(heap[t], amount)];
      match RecordDate(heap[s], now)
      case None => app.(heap := heap)
      case Some(sender) =>
        var heap := heap[s := sender];
        match RecordDate(heap[t], now)
        case None => app.(heap := heap)
        case Some(recipient) =>
          FinishWithUpdate(app.(heap := heap[t := recipient]), s)
  }

  /** The close button: when the entered username and pin are those of
      `currentAcc`, the entry found by `findIndex` is spliced out of
      `accounts`. The countdown keeps running and `currentAcc` keeps pointing
      at the closed account. */
  function Close(app: App, user: string, pin: int): (r: App)
    requires Valid(app)
    ensures Valid(r)
    ensures r.heap == app.heap && r.current == app.current
    ensures r.timer == app.timer && r.pending == app.pending
    ensures CloseAccepted(app, user, pin) ==>
      r.accounts == Splice1(app.accounts, FindIndex(app.heap, app.accounts, user))
    ensures !CloseAccepted(app, user, pin) ==> r == app
  {
    if CloseAccepted(app, user, pin) then
      var k := FindIndex(app.heap, app.accounts, app.heap[app.current.value].username);
      app.(accounts := Splice1(app.accounts, k))
    else app
  }

  /** The entered credentials are those of the account `currentAcc` points
      at. While that account is listed and usernames are unique, these are
      credentials that would log in, and `findIndex` locates that very
      account. */
  predicate CloseAccepted(app: App, user: string, pin: int)
    requires Valid(app)
    ensures CloseAccepted(app, user, pin) && app.current.Some? && app.current.value in app.accounts && UniqueNames(app.heap, app.accounts) ==>
      && LoginAccepted(app, user, pin)
      && app.accounts[FindIndex(app.heap, app.accounts, user)] == app.current.value
  {
    && app.current.Some?
    && (ListedFound(app.heap, app.accounts, app.current.value);
        && user == app.heap[app.current.value].username
        && pin == app.heap[app.current.value].pin)
  }

  /** The creditworthiness test: some movement is at least a tenth of the
      requested amount, compared exactly rather than in floating point. That
      is, the largest movement is at least a tenth of the amount. */
  predicate Creditworthy(movements: seq<int>, amount: int)
    ensures Creditworthy(movements, amount) <==> |movements| > 0 && amount <= 10 * Largest(movements)
  {
    exists i :: 0 <= i < |movements| && 10 * movements[i] >= amount
  }

  /** A loan is granted for a positive amount to whoever `currentAcc` points
      at, a closed account included, when that account's largest movement is
      at least a tenth of the amount. */
  predicate LoanAccepted(app: App, amount: int)
    requires Valid(app)
    ensures LoanAccepted(app, amount) <==>
      && amount > 0
      && app.current.Some?
      && |app.heap[app.current.value].movements| > 0
      && amount <= 10 * Largest(app.heap[app.current.value].movements)
  {
    amount > 0 && app.current.Some? && Creditworthy(app.heap[app.current.value].movements, amount)
  }

  /** The loan button: an accepted request only schedules the deposit. */
  function RequestLoan(app: App, amount: int): (r: App)
    requires Valid(app)
    ensures Valid(r)
    ensures r.(pending := app.pending) == app
    ensures r.pending == if LoanAccepted(app, amount) then app.pending + [amount] else app.pending
  {
    if LoanAccepted(app, amount) then app.(pending := app.pending + [amount]) else app
  }

  /** The oldest scheduled loan callback fires. It credits whatever account
      `currentAcc` points at NOW, without asking whether the countdown is
      still running; it throws on an undefined `currentAcc` (nothing is
      credited) and after the movement push on an object without a date
      list. */
  function LoanDue(app: App, now: Timestamp): (r: App)
    requires Valid(app)
    ensures Valid(r)
    ensures r.accounts == app.accounts && r.current == app.current
    ensures |app.pending| == 0 ==> r == app
    ensures |app.pending| > 0 ==> r.pending == app.pending[1..]
  {
    if |app.pending| == 0 then app
    else
      var amount := app.pending[0];
      var app := app.(pending := app.pending[1..]);
      match app.current
      case None => app
      case Some(c) =>
        var heap := app.heap[c := Record(app.heap[c], amount)];
        match RecordDate(heap[c], now)
        case None => app.(heap := heap)
        case Some(credited) => FinishWithUpdate(app.(heap := heap[c := credited]), c)
  }

  /** One second of the logout interval. Reaching zero only stops the
      interval and hides the page: `currentAcc` stays set. */
  function Second(app: App): (r: App)
    ensures r.(timer := app.timer) == app
    ensures r.timer == Tick(app.timer)
  {
    app.(timer := Tick(app.timer))
  }

  /** `n` seconds without any other event. */
  function Seconds(app: App, n: nat): (r: App)
    ensures r == app.(timer := Ticks(app.timer, n))
    decreases n
  {
    if n == 0 then app else Seconds(Second(app), n - 1)
  }

  /** Everything that can happen to the page. */
  datatype Event =
    | LoginClicked(user: string, pin: int)
    | TransferClicked(to: string, amount: int, now: Timestamp)
    | CloseClicked(user: string, pin: int)
    | LoanClicked(amount: int)
    | LoanTimeout(now: Timestamp)
    | IntervalTick

  function Step(app: App, e: Event): (r: App)
    requires Valid(app)
    ensures Valid(r)
  {
    match e
    case LoginClicked(user, pin) => Login(app, user, pin)
    case TransferClicked(to, amount, now) => Transfer(app, to, amount, now)
    case CloseClicked(user, pin) => Close(app, user, pin)
    case LoanClicked(amount) => RequestLoan(app, amount)
    case LoanTimeout(now) => LoanDue(app, now)
    case IntervalTick => Second(app)
  }

  function Run(app: App, events: seq<Event>): (r: App)
    requires Valid(app)
    ensures Valid(r)
    decreases |events|
  {
    if |events| == 0 then app else Run(Step(app, events[0]), events[1..])
  }

  /** The four demo accounts as the script declares them, before
      `createUsernames` runs. The last two have no dates, currency or
      locale. */
  function DemoAccounts(): seq<Account>
  {
    [ Account("Jonas Schmedtmann", "", 1111, [200, 450, -400, 3000, -650, -130, 70, 1300],
        Some(["2019-11-18T21:31:17.178Z", "2019-12-23T07:42:02.383Z", "2020-01-28T09:15:04.904Z",
              "2020-04-01T10:17:24.185Z", "2020-05-08T14:11:59.604Z", "2020-05-27T17:01:17.194Z",
              "2020-07-11T23:36:17.929Z", "2020-07-12T10:51:36.790Z"]),
        1.2, Some("EUR"), Some("pt-PT"), None),
      Account("Jessica Davis", "", 2222, [5000, 3400, -150, -790, -3210, -1000, 8500, -30],
        Some(["2019-11-01T13:15:33.035Z", "2019-11-30T09:48:16.867Z", "2019-12-25T06:04:23.907Z",
              "2020-01-25T14:18:46.235Z", "2020-02-05T16:33:06.386Z", "2020-04-10T14:43:26.374Z",
              "2024-01-25T18:49:59.371Z", "2024-01-30T12:01:20.894Z"]),
        1.5, Some("USD"), Some("en-US"), None),
      Account("Steven Thomas Williams", "", 3333, [200, -200, 340, -300, -20, 50, 400, -460],
        None, 0.7, None, None, None),
      Account("Sarah Smith", "", 4444, [430, 1000, 700, 50, 90],
        None, 1.0, None, None, None) ]
  }

  /** The page right after the script has loaded the given account list:
      usernames derived, every account listed, nobody logged in, no
      interval, nothing scheduled. */
  function Loaded(demo: seq<Account>): (r: App)
    ensures Valid(r)
    ensures |r.heap| == |demo| && |r.accounts| == |demo|
    ensures forall k :: 0 <= k < |demo| ==> r.accounts[k] == k
    ensures r.current.None? && r.timer.Stopped? && r.pending == []
    ensures r.heap == CreateUsernames(demo)
  {
    App(CreateUsernames(demo), seq(|demo|, k requires 0 <= k < |demo| => k), None, Stopped, [])
  }
}
