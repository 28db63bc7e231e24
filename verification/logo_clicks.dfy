/**
  The header logo's hidden triple click: clicks are counted, a third click
  in a row calls the easter-egg callback, and 500 ms without a click resets
  the count. The reset timer is a flag; its expiry is an event.
 */
module LogoClicks {

  const Needed: nat := 3
  const ResetAfterMs: nat := 500

  /** The click count and whether a reset timer is pending. */
  datatype Clicks = Clicks(count: nat, timerArmed: bool)

  const Start: Clicks := Clicks(0, false)

  predicate Valid(c: Clicks) {
    c.count < Needed
  }

  /**
    `handleLogoClick`: cancel the pending reset, count the click; the third
    click fires the callback and starts over, any other arms a fresh reset.
    `fired` says whether the callback ran.
   */
  function Click(c: Clicks): (r: (Clicks, bool))
    requires Valid(c)
    ensures Valid(r.0)
    ensures r.1 <==> c.count == Needed - 1
    ensures r.1 ==> r.0 == Start
    ensures !r.1 ==> r.0 == Clicks(c.count + 1, true)
  {
    var newCount := c.count + 1;
    if newCount == Needed then (Clicks(0, false), true)
    else (Clicks(newCount, true), false)
  }

  /** The reset timer fires: the count drops to zero and the callback does not run. */
  function Expire(c: Clicks): (r: Clicks)
    requires c.timerArmed
    ensures r == Start
  {
    Clicks(0, false)
  }

  datatype Event = LogoClick | ResetExpires

  /** Runs the events that can happen (an expiry needs a pending timer), counting callback calls. */
  function Run(c: Clicks, events: seq<Event>): (r: (Clicks, nat))
    requires Valid(c)
    ensures Valid(r.0)
    decreases |events|
  {
    if events == [] then (c, 0)
    else match events[0]
      case LogoClick =>
        var (next, fired) := Click(c);
        var (last, n) := Run(next, events[1..]);
        (last, n + if fired then 1 else 0)
      case ResetExpires =>
        if c.timerArmed then Run(Expire(c), events[1..]) else Run(c, events[1..])
  }

  /** `n` clicks in a row, each before the timer runs out. */
  function ClicksOnly(n: nat): seq<Event> {
    seq(n, _ => LogoClick)
  }

  /** An uninterrupted run of `n` clicks fires once per completed group of three. */
  lemma {:induction false} UninterruptedClicks(c: Clicks, n: nat)
    requires Valid(c)
    ensures Run(c, ClicksOnly(n)).1 == (c.count + n) / Needed
    ensures Run(c, ClicksOnly(n)).0.count == (c.count + n) % Needed
    decreases n
  {
    if n > 0 {
      assert ClicksOnly(n)[1..] == ClicksOnly(n - 1);
      UninterruptedClicks(Click(c).0, n - 1);
    }
  }

  /** From rest, the callback fires on clicks 3, 6, 9, ... and on no others. */
  lemma FiresOnMultiplesOfThree(k: nat)
    requires k >= 1
    ensures Run(Start, ClicksOnly(k)).1 - Run(Start, ClicksOnly(k - 1)).1 == (if k % 3 == 0 then 1 else 0)
  {
    UninterruptedClicks(Start, k);
    UninterruptedClicks(Start, k - 1);
  }

  /** Two clicks, a pause long enough for the reset, then one more click: no callback. */
  lemma PauseBreaksTheRun()
    ensures Run(Start, [LogoClick, LogoClick, ResetExpires, LogoClick]) == (Clicks(1, true), 0)
  {
  }

  /** After an expiry the count starts again, so three fresh clicks are needed. */
  lemma ExpiryRestartsCount(c: Clicks, n: nat)
    requires Valid(c) && c.timerArmed
    ensures Run(c, [ResetExpires] + ClicksOnly(n)).1 == n / Needed
  {
    assert ([ResetExpires] + ClicksOnly(n))[1..] == ClicksOnly(n);
    UninterruptedClicks(Start, n);
  }
}
