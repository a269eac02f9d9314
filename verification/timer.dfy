/** The inactivity countdown (`startLogOutTimer` and its `tick`), driven by
    explicit one-second ticks instead of `setInterval`. */
module LogoutTimer {

  /** Length of a session without activity, in seconds. */
  const LogoutSeconds := 300

  /** The interval timer: stopped, or running with the closure's `time`
      variable, the number shown at the next tick. */
  datatype Clock = Stopped | Running(time: nat)

  /** One run of `tick`: at zero the interval is cleared (the page hides the
      account), otherwise `time` drops by one. */
  function TickBody(time: nat): (r: Clock)
    ensures r.Running? <==> time > 0
    ensures r.Running? ==> r.time < time
  {
    if time == 0 then Stopped else Running(time - 1)
  }

  /** `startLogOutTimer`: `time` starts at 300 and `tick` runs once at once,
      before the interval is set up. */
  function Start(): (r: Clock)
    ensures r == Running(LogoutSeconds - 1)
  {
    TickBody(LogoutSeconds)
  }

  /** One firing of the interval: a running countdown loses one second, one
      that shows zero stops, and a cleared interval never fires. */
  function Tick(c: Clock): (r: Clock)
    ensures r.Running? <==> c.Running? && c.time > 0
    ensures r.Running? ==> r.time == c.time - 1
  {
    match c
    case Stopped => Stopped
    case Running(time) => TickBody(time)
  }

  /** `n` firings in a row: a running countdown loses one second per tick
      and stops on the tick after it shows zero; a stopped one stays
      stopped. */
  function Ticks(c: Clock, n: nat): (r: Clock)
    ensures c.Stopped? ==> r == Stopped
    ensures c.Running? ==> r == if n <= c.time then Running(c.time - n) else Stopped
    decreases n
  {
    if n == 0 then c else Ticks(Tick(c), n - 1)
  }

  /** A freshly started countdown keeps the session alive through 299 ticks
      and ends it on the 300th, 300 seconds after the start. */
  lemma SessionLastsLogoutSeconds(n: nat)
    ensures Ticks(Start(), n).Running? <==> n < LogoutSeconds
    ensures n < LogoutSeconds ==> Ticks(Start(), n).time == LogoutSeconds - 1 - n
  {
  }
}
