# Bankist in Dafny

A model of the small in-memory bank in `Bankist/script.js`, with proofs about it. The model covers five parts:

- **Movement ledger.** Balance (`calcBalance`), money in (`calcIN`), money out (`calcOut`), per-deposit interest (`calcInterest`), and the sorted view behind the sort button.
- **Account directory.** Username derivation (`createUsernames`), lookup (`accounts.find` / `findIndex`), and removal by `splice`.
- **Operation handlers.** Login, transfer, close account, loan request, and the loan's delayed completion.
- **Logout countdown.** `startLogOutTimer` and its `tick`, driven by explicit one-second events.
- **Demo data.** The four demo accounts as the script declares them.

The model has two layers over one state type, `Bankist.App`. That type holds the script's globals:

- every account object, addressed by identity;
- the `accounts` array;
- `currentAcc`;
- the interval timer;
- the loan callbacks not yet fired.

The two layers are:

- **`Bankist`** holds the handlers as written. A handler that throws part-way leaves the state as it was at the throw. `updateUI` throws in three cases:
  - the account has no currency (the `Intl.NumberFormat` call in `calcBalance`);
  - a movement has no date (`displayMovements`);
  - the history is empty (`reduce` without an initial value).

  The `balance` property is cached on the account object and read by the transfer guard.
- **`Intended`** holds the handlers as they are evidently meant to behave:
  - the balance is read from the history;
  - a failed login changes nothing;
  - every operation needs an open session;
  - a transfer applies both sides or neither;
  - closing an account ends the session;
  - a session that ends cancels its scheduled loans.

  `Soundness` proves that every event preserves an invariant, `Intended.Sound`, and that the loaded demo page satisfies it. So no run of events ever overdraws an account.

`BankistFacts` states what each as-written handler does. `Findings` runs the as-written handlers from the demo page into four states the page should never reach: an overdrawn account, a loan paid to an account whose pin was not entered, a loan paid after logout, and an account closed without its pin. `Demo` and `Examples` work out the demo data and the worked examples.

Modules are `Wrappers`, `Collections`, `Ledger`, `Usernames`, `Accounts`, `LogoutTimer`, `Bankist`, `BankistFacts`, `Demo`, `Examples`, `Findings`, `Intended` and `Soundness`, one per file.

Where the code departs from that intended behaviour, the `Bankist` layer follows the code:

- An empty history has no balance (`reduce` throws), where a balance of 0 is evidently meant.
- A failed login rebinds `currentAcc`.
- Closing an account neither clears `currentAcc` nor stops the countdown.
- Removing an unlisted username removes the last account, where removing nothing is evidently meant.
- A loan is paid even after the session has ended.
- The countdown shows 300 and has 299 left once `startLogOutTimer` returns, because `tick` runs once straight away. The 300th interval tick ends the session.

## Model

| member | source | states |
|---|---|---|
| Collections.Filter | Bankist/script.js:155-156 | every element that passes the test is kept, nothing that fails it is, and the list never grows |
| Collections.FilterCounts | Bankist/script.js:155-156 | each element that passes the test occurs as often as in the input, and no other element occurs: the result is the input's passing sub-multiset |
| Collections.FilterAppend | Bankist/script.js:155-156 | filtering a history with one more movement keeps what it kept before, in the same order, followed by the new movement exactly when it passes |
| Ledger.SumAppend | Bankist/script.js:145 | the fold's total grows by exactly the movement added at the end |
| Ledger.SumFront | Bankist/script.js:145 | folding from the front gives the same total as the left-to-right `reduce` |
| Ledger.CalcBalance | Bankist/script.js:144-145 | no balance exactly when the history is empty (the fold throws); otherwise the balance equals money in minus money out |
| Ledger.TotalIn | Bankist/script.js:154-157 | money in is never negative and is zero exactly when no movement is a deposit |
| Ledger.TotalOut | Bankist/script.js:161-166 | money out is never negative and is zero exactly when no movement is a withdrawal |
| Ledger.TotalInAppend | Bankist/script.js:154-157 | one more movement raises money in by its amount when it is a deposit and leaves it alone otherwise |
| Ledger.TotalOutAppend | Bankist/script.js:161-166 | one more movement raises money out by its size when it is a withdrawal and leaves it alone otherwise |
| Ledger.SumSplits | Bankist/script.js:145-164 | the total of a history is the deposits' total plus the withdrawals' total |
| Ledger.BalanceIsInMinusOut | Bankist/script.js:144-170 | money in minus money out is the sum of the movements, for every history |
| Ledger.InterestTerms | Bankist/script.js:175 | one interest amount per deposit, in deposit order, each that deposit's interest at the account's rate |
| Ledger.InterestTermsTotal | Bankist/script.js:175 | the per-deposit interest amounts add up to the interest on their total |
| Ledger.Interest | Bankist/script.js:172-177 | interest is never negative, is zero at a rate of zero or below, and never exceeds the rate applied to the money in |
| Ledger.CountedInterestComesFromDeposits | Bankist/script.js:173-176 | every amount that is counted is at least one unit and is the interest of some deposit in the history |
| Ledger.InterestAppend | Bankist/script.js:172-177 | recording one more movement raises the interest by that movement's own interest: a deposit earning at least one unit adds it, and anything else adds nothing |
| Ledger.SortedView | Bankist/script.js:124-125 | the sorted copy is ascending and a permutation of the history |
| Ledger.SortedViewOfAscending | Bankist/script.js:124-125 | sorting a history that is already ascending returns it unchanged |
| Ledger.SortedViewIdempotent | Bankist/script.js:124-125 | sorting the sorted view again changes nothing |
| Ledger.MovementsView | Bankist/script.js:124-126 | the rendered sequence holds the same movements as the history; it is ascending when sorting is on and is the history itself when it is off |
| Usernames.LowerString | Bankist/script.js:188 | lowercasing keeps the length and lowercases each character |
| Usernames.Split | Bankist/script.js:189 | `split(' ')` yields at least one piece and no piece contains a space |
| Usernames.JoinSplit | Bankist/script.js:189 | joining the pieces with single spaces gives back the text |
| Usernames.SplitJoin | Bankist/script.js:189 | splitting undoes joining for words without spaces |
| Usernames.SplitLower | Bankist/script.js:187-189 | lowercasing and then splitting equals splitting and then lowercasing each piece |
| Usernames.Initials | Bankist/script.js:190-191 | one character per non-empty word, each the first character of its word, in word order; empty words contribute nothing |
| Usernames.Username | Bankist/script.js:187-191 | lowercasing the name before taking initials, as the script does, gives the lowercased initials of the name: one character per non-empty word |
| Usernames.InitialsLowerAll | Bankist/script.js:187-191 | taking the first characters commutes with lowercasing every word |
| Usernames.UsernameInitials | Bankist/script.js:185-193 | the username has one character per non-empty word of the owner's name, and each is the lowercased first letter of that word |
| Usernames.UsernameOfWords | Bankist/script.js:185-193 | for a name of non-empty words separated by single spaces, the username is the lowercased first letter of every word |
| Accounts.CreateUsernames | Bankist/script.js:185-194 | every account gets the username derived from its owner, and nothing else about any account changes |
| Accounts.FindIndex | Bankist/script.js:298 | -1 exactly when no listed account has the username; otherwise the position of the first one that has it |
| Accounts.Find | Bankist/script.js:236 | `undefined` exactly when no listed account has the username; otherwise the FIRST listed account with that username, the one `findIndex` locates |
| Accounts.FindUnique | Bankist/script.js:267-269 | with unique usernames, looking up a listed account's username finds that very account |
| Accounts.Splice1 | Bankist/script.js:299 | `splice(start, 1)` removes the entry at a start inside the list; a negative start counts from the end, and one before the beginning removes the first entry; a start past the end removes nothing; the others keep their order, and no entry is added |
| Accounts.ListedFound | Bankist/script.js:298 | with unique usernames, a listed account's own username locates exactly that account |
| Accounts.SpliceFound | Bankist/script.js:298-299 | removing a listed username takes out exactly its entry and keeps the others in order |
| Accounts.SpliceMissingDropsLast | Bankist/script.js:298-299 | removing an unlisted username takes out the last account (`findIndex` gives -1) |
| Accounts.Remove | Bankist/script.js:298-299 | the intended removal: nothing happens for an absent username; otherwise the entry `findIndex` locates goes, the others keep their order, the result agrees with `splice` there, and with unique usernames exactly the accounts with other usernames remain |
| LogoutTimer.TickBody | Bankist/script.js:214-219 | a tick at zero stops the interval; otherwise it keeps running with a smaller time |
| LogoutTimer.Start | Bankist/script.js:222-226 | a fresh countdown runs with 299 seconds left after its immediate first tick |
| LogoutTimer.Tick | Bankist/script.js:214-219 | a running countdown above zero loses one second; at zero it stops; a cleared interval stays cleared |
| LogoutTimer.Ticks | Bankist/script.js:214-225 | `n` firings of the interval take a running countdown down by `n` seconds, or stop it once `n` exceeds what it shows; a stopped one stays stopped |
| LogoutTimer.SessionLastsLogoutSeconds | Bankist/script.js:205-226 | after a fresh start the countdown runs through 299 ticks and stops on the 300th, with 299 − n seconds left after n ticks |
| Bankist.RefreshBalance | Bankist/script.js:144-145 | `calcBalance` stores the balance of a non-empty history on the object, leaves an empty history's object alone, and changes nothing else |
| Bankist.UpdateUICompletes | Bankist/script.js:196-202 | `updateUI` completes exactly when `calcBalance` yields a balance, the account has a currency and every movement has a date; then the stored balance is the computed one |
| Bankist.LoginAccepted | Bankist/script.js:236-238 | a login succeeds exactly when the first listed account with the username has the pin; a later account with the same username never logs in |
| Bankist.Login | Bankist/script.js:234-258 | `currentAcc` becomes the lookup result even when the pin is wrong; on success the countdown restarts and the account's balance is refreshed; on failure nothing else changes |
| Bankist.TransferAccepted | Bankist/script.js:273-277 | a transfer passes the guard exactly for a positive amount, with `currentAcc` set, to a username some listed account has that differs from the sender's, of no more than the sender's stored balance |
| Bankist.Record | Bankist/script.js:279-280 | `push` appends the amount after every earlier movement and changes nothing else on the object; the loan callback (line 311) pushes the same way |
| Bankist.RecordDate | Bankist/script.js:282-283 | pushing a date fails exactly on an object without a date list; otherwise the date is appended and nothing else changes |
| Bankist.FinishWithUpdate | Bankist/script.js:284-287 | the end of a transfer or loan refreshes the balance, and restarts the countdown exactly when `updateUI` runs to completion |
| Bankist.Transfer | Bankist/script.js:264-288 | a transfer the guard rejects changes nothing; the directory, `currentAcc` and the scheduled loans never change |
| Bankist.Close | Bankist/script.js:291-302 | for the session account's credentials, the list becomes the `splice` at `findIndex`; objects, `currentAcc`, countdown and loans are untouched; otherwise nothing changes |
| Bankist.CloseAccepted | Bankist/script.js:294-296 | while the session account is listed and usernames are unique, credentials the close form accepts would also log in, and `findIndex` locates the session account |
| Ledger.Largest | Bankist/script.js:309 | the largest movement is one of the movements and no movement exceeds it |
| Bankist.Creditworthy | Bankist/script.js:309 | some movement is at least a tenth of the amount exactly when the history is not empty and its largest movement is |
| Bankist.LoanAccepted | Bankist/script.js:309 | a loan passes the guard exactly for a positive amount when `currentAcc` is set, a closed account included, and its largest movement is at least a tenth of the amount |
| Bankist.RequestLoan | Bankist/script.js:306-310 | an accepted request (positive amount, some movement at least a tenth of it) schedules exactly that amount; nothing else changes |
| Bankist.LoanDue | Bankist/script.js:310-316 | the oldest scheduled loan is taken off the schedule whether or not it is paid; the directory and `currentAcc` stay |
| Bankist.Second | Bankist/script.js:214-219 | one interval tick changes only the countdown; `currentAcc` stays bound when it stops |
| Bankist.Seconds | Bankist/script.js:225 | `n` quiet seconds change only the countdown, by `n` ticks |
| Bankist.Loaded | Bankist/script.js:60 | the loaded page holds exactly the declared account objects, each with its derived username, lists them all in order, and has nobody logged in, no interval and nothing scheduled, as after `createUsernames(accounts)` on line 194 |
| BankistFacts.GuardReadsBalance | Bankist/script.js:273-277 | while the stored balance is fresh, the transfer guard accepts exactly a positive amount no larger than the sender's balance, going to an existing account with another username |
| BankistFacts.LoginRefreshesBalance | Bankist/script.js:236-258 | a successful login on an account with a history leaves its stored balance fresh and 299 seconds on the countdown |
| BankistFacts.LoginSessionLength | Bankist/script.js:256-257 | after a successful login the session runs exactly while fewer than 300 quiet seconds have passed, and `currentAcc` stays on the account |
| BankistFacts.TransferMovesMoney | Bankist/script.js:279-280 | an accepted transfer lowers the sender's balance and raises the recipient's by the amount, appending one movement to each; on the two objects only dates, and the sender's stored balance, may also change; every other object is unchanged |
| BankistFacts.TransferConservesMoney | Bankist/script.js:279-280 | no transfer creates or destroys money across all accounts |
| BankistFacts.TransferCompletes | Bankist/script.js:279-287 | when both accounts keep dates, each gains the date, the sender's stored balance is fresh, the recipient's stored balance, rate, currency and locale are untouched, and the countdown restarts exactly when the page can be redrawn |
| BankistFacts.TransferHalfApplied | Bankist/script.js:279-283 | when either account lacks dates, the money moves but the stored balance goes stale, the recipient's dates and stored balance are untouched, no rate, currency or locale changes, and the countdown is not restarted |
| BankistFacts.LoanCreditsCurrent | Bankist/script.js:310-316 | the loan is paid into whatever account `currentAcc` points at when the callback fires, whether the countdown still runs or not; the stored balance is refreshed exactly when the date push succeeds and is otherwise left stale; on that object nothing else but the movements and dates changes, and no other object changes |
| BankistFacts.LoanWithoutAccount | Bankist/script.js:311 | with no `currentAcc` the callback throws and the loan is lost |
| BankistFacts.CloseRemovesCurrent | Bankist/script.js:294-299 | closing a still-listed session account removes exactly it, like the intended removal |
| BankistFacts.CloseUnlistedDropsLast | Bankist/script.js:294-299 | closing an account that is no longer listed removes the last listed account instead |
| BankistFacts.RunExtends | Bankist/script.js:279-312 | whatever the events, histories only grow at the end, names and pins never change, and no account joins the list |
| Demo.JonasUsername | Bankist/script.js:9 | "Jonas Schmedtmann" gives "js" |
| Demo.JessicaUsername | Bankist/script.js:28 | "Jessica Davis" gives "jd" |
| Demo.SarahUsername | Bankist/script.js:54 | "Sarah Smith" gives "ss" |
| Demo.StevenUsername | Bankist/script.js:47 | "Steven Thomas Williams" gives "stw" |
| Demo.DemoDeclared | Bankist/script.js:8-58 | the declared accounts have the owners, pins and balances 3840, 11720, 10 and 2270; the first two keep one date per movement and have a currency, and the last two have no dates |
| Demo.DemoLoaded | Bankist/script.js:185-194 | after loading, the accounts are listed as js, jd, stw and ss, all distinct |
| Examples.SubUnitInterestIsDropped | Bankist/script.js:10-11 | at the rate 1.2 the 70 deposit earns 0.84, which is dropped, while 1300 earns 15.6, which counts |
| Examples.LoanNeedsATenth | Bankist/script.js:309 | the first demo history qualifies for loans of 2000 and 30000 but not 30001 |
| Findings.OverdraftThroughUndatedRecipient | Bankist/script.js:273-283 | from the demo page, two accepted transfers of 3840 leave the first account at −3840 |
| Findings.FailedLoginRedirectsLoan | Bankist/script.js:236-238 | from the demo page, a failed login as "jd" followed by a loan pays the loan into that account |
| Findings.LoanCreditedAfterLogout | Bankist/script.js:310-316 | a loan requested in the last second is paid after the countdown has stopped and restarts it |
| Findings.SecondCloseRemovesAnother | Bankist/script.js:294-299 | closing the first account twice removes the last account as well |
| Intended.Login | Bankist/script.js:236-258 | a failed login changes nothing; a session only ever switches to the account whose username and pin were entered; a successful login opens a session on the account the lookup finds, with a fresh countdown and nothing scheduled |
| Intended.RecordMovement | Bankist/script.js:279-283 | the movement and, where the account keeps dates, the date are appended together, so the balance changes by the amount and the date alignment is kept; an account without a date list stays without one, and nothing else changes |
| Intended.Transfer | Bankist/script.js:264-288 | a rejected transfer changes nothing; an accepted one restarts the countdown, and the directory, session and loans stay |
| Intended.RequestLoan | Bankist/script.js:306-310 | a request is scheduled only inside an open session, for a positive amount some movement covers a tenth of; nothing else changes |
| Intended.LoanDue | Bankist/script.js:310-316 | the oldest loan leaves the schedule; inside an open session it is recorded on the session account and the countdown restarts; outside one no history and no countdown changes |
| Intended.Close | Bankist/script.js:291-302 | the session account's credentials remove it from the directory and end the session with nothing scheduled; anything else changes nothing |
| Intended.Second | Bankist/script.js:214-219 | a tick only counts down; when the countdown stops, the session ends and its scheduled loans are dropped |
| Soundness.TransferRecordsBothSides | Bankist/script.js:273-283 | an accepted transfer records the amount on both sides, never overdraws the sender, leaves every other account alone and conserves money |
| Soundness.StepKeepsSound | Bankist/script.js:234-329 | every event keeps the intended invariant: unique usernames, a session exactly while the countdown runs, on a listed account, loans only inside a session, no negative balance, and dates aligned |
| Soundness.RunKeepsSound | Bankist/script.js:234-329 | every run of events from a sound page ends on a sound page |
| Soundness.LoadedIsSound | Bankist/script.js:8-60 | the loaded demo page satisfies the invariant |
| Soundness.DemoNeverOverdrawn | Bankist/script.js:273-276 | from the demo page, no run of events overdraws an account or breaks date alignment |
| Soundness.LoanCancelledAtTimeout | Bankist/script.js:310-316 | a loan requested inside a session that then times out is never paid, and a late completion changes no history |
| Soundness.CloseRemovesOnlyOwnAccount | Bankist/script.js:294-299 | closing removes exactly the session's account, and submitting the form again changes nothing |

## Left out

- Presentation is not modelled: DOM lookups, label writes, HTML rows and opacity changes (`Bankist/script.js:63-86`, `128-141`, `147-151`, `158`, `165-169`, `178-182`, `239-240`, `300-301`). It shows up only where it throws and so cuts a handler short.
- Locale formatting is not modelled: `formatDate`, `formatCurrency`, `Intl.DateTimeFormat` and the `mm:ss` label (`Bankist/script.js:102-119`, `207-211`, `251-254`). It is done by a library outside the script.
- Wall-clock time is not modelled.
  - `setInterval` becomes an explicit tick event.
  - Each `setTimeout` becomes a completion event that may arrive at any point. Callbacks complete oldest first, as equal 1500 ms delays do.
  - `new Date().toISOString()` becomes an opaque timestamp parameter.
- Form parsing with `Number` and `Math.round` (`Bankist/script.js:266`, `308`) is not modelled. Amounts are whole numbers given directly.
- Floating point is not modelled. Interest uses exact reals, and the loan test `mov >= amount * 0.1` is stated as `10 * mov >= amount`.
- Usernames.LowerString: lowercases ASCII letters only, where `toLowerCase` covers all of Unicode.
- The `sorted` flag of the sort button (`Bankist/script.js:323-329`) is left out; only the view it selects is modelled. Pairing each sorted row with its date is presentation.
- The `currencies` map and `movements` array (`Bankist/script.js:92-98`) are left out because nothing in the app uses them.
- Bankist.Step and Bankist.Run: their contracts only state that every reference stays valid. What each event does is stated by the handlers and by `BankistFacts`.
- Intended.Transfer: on an account that keeps no dates (the last two demo accounts), it records the movement without a date. The intended behaviour assumes every account keeps dates, but the demo data gives none to invent.
- Intended.LoanDue: likewise records a loan without a date on an account that keeps no dates.

## Findings

| source | as written | input that shows it | evidently intended | confidence | as-written member | corrected member |
|---|---|---|---|---|---|---|
| Bankist/script.js:273-283 | The guard reads the cached `balance`. A transfer to an account without `movementsDates` throws at line 283, after both movements are pushed but before `updateUI` refreshes that cache. | Log in as js/1111 and transfer 3840 to "stw". The balance is now 0 but the cache still says 3840. Then transfer 3840 to "jd": the balance becomes −3840. | The guard reads the balance from the history, and a transfer applies completely or not at all. | high; not executed | Findings.OverdraftThroughUndatedRecipient | Intended.Transfer, Soundness.DemoNeverOverdrawn |
| Bankist/script.js:236-238 | `currentAcc` is overwritten with the lookup result before the pin is checked, so a failed login changes the account that later operations act on. | Log in as js/1111, then try to log in as "jd" with pin 0. Request a loan of 100, and it is paid into jd's account. | A failed login has no side effects. | high; not executed | Findings.FailedLoginRedirectsLoan | Intended.Login |
| Bankist/script.js:310-316 | The loan callback credits `currentAcc` without checking that the session is still open, then restarts the countdown. | Log in as js/1111 and wait 299 s. Request 100, the countdown stops one tick later, then the callback fires: 100 is paid and the countdown runs again. | A loan completing after the session has ended is discarded. | high; not executed | Findings.LoanCreditedAfterLogout | Intended.LoanDue, Soundness.LoanCancelledAtTimeout |
| Bankist/script.js:294-299 | Closing does not clear `currentAcc`, so the same credentials are accepted again. `findIndex` then returns -1 and `splice(-1, 1)` removes the last account. | Log in as js/1111, close js/1111, then submit js/1111 again. "ss" is removed although its pin was never entered. | Closing ends the session, and removing an absent username does nothing. | medium, because the page hides the form after the first close; not executed | Findings.SecondCloseRemovesAnother | Intended.Close, Accounts.Remove, Soundness.CloseRemovesOnlyOwnAccount |
