/**
  The hero banner's typewriter: every 50 ms a tick shows one more character
  of the tagline, and once the whole tagline is shown the next tick stops the
  interval. The interval is a flag; each tick is one call of the step.
 */
module Typewriter {

  const FullText: string := "I build useful software and ship fast."
  const TickMs: nat := 50

  /** The closure's `index`, the displayed text, and whether the interval still runs. */
  datatype Typing = Typing(index: nat, shown: string, running: bool)

  const Start: Typing := Typing(0, "", true)

  /** What stays true between ticks. */
  predicate Valid(t: Typing) {
    && t.index <= |FullText| + 1
    && t.shown <= FullText
    && (t.index > 0 ==> t.shown == FullText[..t.index - 1])
    && (!t.running ==> t.index == |FullText| + 1)
  }

  /** One firing of the interval callback. */
  function Tick(t: Typing): (r: Typing)
    requires Valid(t)
    ensures Valid(r)
    ensures t.running && t.index <= |FullText| ==> r == Typing(t.index + 1, FullText[..t.index], true)
    ensures t.running && t.index > |FullText| ==> r == t.(running := false)
    ensures !t.running ==> r == t
  {
    if !t.running then t
    else if t.index <= |FullText| then Typing(t.index + 1, FullText[..t.index], true)
    else t.(running := false)
  }

  function Ticks(t: Typing, n: nat): (r: Typing)
    requires Valid(t)
    ensures Valid(r)
    decreases n
  {
    if n == 0 then t else Ticks(Tick(t), n - 1)
  }

  /** Up to the whole tagline, the `n`th tick shows its first `n - 1` characters. */
  lemma {:induction false} TicksFromStart(n: nat)
    requires n <= |FullText| + 1
    ensures Ticks(Start, n) == Typing(n, if n == 0 then "" else FullText[..n - 1], true)
  {
    if n > 0 {
      TicksFromStartAcc(n);
    }
  }

  lemma {:induction false} TicksFromStartAcc(n: nat)
    requires 0 < n <= |FullText| + 1
    ensures Ticks(Start, n) == Typing(n, FullText[..n - 1], true)
    decreases n
  {
    if n == 1 {
      assert Ticks(Start, 1) == Ticks(Tick(Start), 0);
    } else {
      TicksFromStartAcc(n - 1);
      TicksSplit(Start, n - 1, 1);
    }
  }

  lemma {:induction false} TicksSplit(t: Typing, a: nat, b: nat)
    requires Valid(t)
    ensures Ticks(t, a + b) == Ticks(Ticks(t, a), b)
    decreases a
  {
    if a > 0 {
      TicksSplit(Tick(t), a - 1, b);
    }
  }

  /** After one tick per character plus one, the whole tagline is shown and the interval still runs. */
  lemma WholeTaglineShown()
    ensures Ticks(Start, |FullText| + 1) == Typing(|FullText| + 1, FullText, true)
  {
    TicksFromStart(|FullText| + 1);
    assert FullText[..|FullText|] == FullText;
  }

  /** The next tick stops the interval without touching the text, and later ticks change nothing. */
  lemma ThenItStops(extra: nat)
    ensures Ticks(Start, |FullText| + 2 + extra) == Typing(|FullText| + 1, FullText, false)
  {
    WholeTaglineShown();
    TicksSplit(Start, |FullText| + 1, 1 + extra);
    var stopped := Typing(|FullText| + 1, FullText, false);
    assert Ticks(Typing(|FullText| + 1, FullText, true), 1 + extra) == Ticks(stopped, extra);
    StoppedStaysStopped(stopped, extra);
  }

  lemma {:induction false} StoppedStaysStopped(t: Typing, n: nat)
    requires Valid(t) && !t.running
    ensures Ticks(t, n) == t
    decreases n
  {
    if n > 0 {
      StoppedStaysStopped(Tick(t), n - 1);
    }
  }
}
