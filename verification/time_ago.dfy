/**
  `formatTimeAgo` from the "now" dashboard: a millisecond difference becomes
  "N days ago", "N hours ago", "N minutes ago" or "Just now". The difference
  is a parameter instead of two dates read from the clock.
 */
module TimeAgo {
  import opened Strings

  const MsPerMinute: int := 60000
  const MsPerHour: int := 3600000
  const MsPerDay: int := 86400000

  /** The unit the formatter settles on, with its count. */
  datatype Ago = Days(n: nat) | Hours(n: nat) | Minutes(n: nat) | JustNow

  /**
    Floor division by a positive divisor, as `Math.floor(a / b)` computes it;
    Dafny's `/` rounds the same way when the divisor is positive.
   */
  function FloorDiv(a: int, b: int): (q: int)
    requires b > 0
    ensures q * b <= a < (q + 1) * b
  {
    a / b
  }

  /** Flooring twice is flooring once by the product. */
  lemma FloorDivNested(a: int, b: int, c: int)
    requires b > 0 && c > 0
    ensures FloorDiv(FloorDiv(a, b), c) == FloorDiv(a, b * c)
  {
    var q1 := FloorDiv(a, b);
    var q2 := FloorDiv(q1, c);
    assert q2 * c <= q1 < (q2 + 1) * c;
    assert q2 * c * b <= q1 * b by {
      MulMonotone(q2 * c, q1, b);
    }
    assert (q1 + 1) * b <= (q2 + 1) * c * b by {
      MulMonotone(q1 + 1, (q2 + 1) * c, b);
    }
    assert q2 * (b * c) <= a < (q2 + 1) * (b * c);
    FloorDivUnique(a, b * c, q2);
  }

  lemma MulMonotone(x: int, y: int, b: int)
    requires x <= y && b > 0
    ensures x * b <= y * b
  {
  }

  lemma FloorDivUnique(a: int, b: int, q: int)
    requires b > 0 && q * b <= a < (q + 1) * b
    ensures FloorDiv(a, b) == q
  {
    var r := FloorDiv(a, b);
    if r < q {
      MulMonotone(r + 1, q, b);
    } else if r > q {
      MulMonotone(q + 1, r, b);
    }
  }

  /** The three counts the formatter derives, each floored from the one before. */
  function MinutesOf(diff: int): int { FloorDiv(diff, MsPerMinute) }
  function HoursOf(diff: int): int { FloorDiv(MinutesOf(diff), 60) }
  function DaysOf(diff: int): int { FloorDiv(HoursOf(diff), 24) }

  lemma DerivedUnits(diff: int)
    ensures HoursOf(diff) == FloorDiv(diff, MsPerHour)
    ensures DaysOf(diff) == FloorDiv(diff, MsPerDay)
  {
    FloorDivNested(diff, MsPerMinute, 60);
    FloorDivNested(diff, MsPerHour, 24);
  }

  /** Which branch of `formatTimeAgo` returns, tried in the order days, hours, minutes. */
  function Classify(diff: int): (r: Ago)
    ensures r.Days? <==> diff >= MsPerDay
    ensures r.Hours? <==> MsPerHour <= diff < MsPerDay
    ensures r.Minutes? <==> MsPerMinute <= diff < MsPerHour
    ensures r.JustNow? <==> diff < MsPerMinute
    ensures r.Days? ==> r.n == diff / MsPerDay && r.n >= 1
    ensures r.Hours? ==> r.n == diff / MsPerHour && 1 <= r.n <= 23
    ensures r.Minutes? ==> r.n == diff / MsPerMinute && 1 <= r.n <= 59
  {
    DerivedUnits(diff);
    if DaysOf(diff) > 0 then Days(DaysOf(diff))
    else if HoursOf(diff) > 0 then Hours(HoursOf(diff))
    else if MinutesOf(diff) > 0 then Minutes(MinutesOf(diff))
    else JustNow
  }

  /** `"${n} unit"`, with an `s` when `n > 1`, then `" ago"`. */
  function Phrase(n: nat, unit: string): string {
    NatToString(n) + " " + unit + (if n > 1 then "s" else "") + " ago"
  }

  function Render(a: Ago): string {
    match a
    case Days(n) => Phrase(n, "day")
    case Hours(n) => Phrase(n, "hour")
    case Minutes(n) => Phrase(n, "minute")
    case JustNow => "Just now"
  }

  /** `formatTimeAgo`, given the difference in milliseconds. */
  function FormatTimeAgo(diff: int): (r: string)
    ensures diff >= MsPerDay ==> r == Phrase(diff / MsPerDay, "day")
    ensures MsPerHour <= diff < MsPerDay ==> r == Phrase(diff / MsPerHour, "hour")
    ensures MsPerMinute <= diff < MsPerHour ==> r == Phrase(diff / MsPerMinute, "minute")
    ensures diff < MsPerMinute ==> r == "Just now"
  {
    Render(Classify(diff))
  }

  /** Anything under a minute, including a time in the future, is "Just now". */
  lemma UnderAMinute(diff: int)
    requires diff < MsPerMinute
    ensures FormatTimeAgo(diff) == "Just now"
  {
  }

  /** The singular form appears exactly for a count of one. */
  lemma PhraseSingular(n: nat, unit: string)
    requires n >= 1
    ensures n == 1 ==> Phrase(n, unit) == "1 " + unit + " ago"
    ensures n > 1 ==> Phrase(n, unit) == NatToString(n) + " " + unit + "s ago"
  {
    if n == 1 {
      assert NatToString(1) == "1";
    }
  }

  /** The phrase opens with the count in decimal, which reads back as the number of whole units. */
  lemma PhraseLeadsWithCount(diff: int)
    requires diff >= MsPerMinute
    ensures var a := Classify(diff);
            && StartsWith(FormatTimeAgo(diff), NatToString(a.n) + " ")
            && ParseNat(NatToString(a.n)) == a.n
  {
    var a := Classify(diff);
    var digits := NatToString(a.n);
    var unit := match a case Days(_) => "day" case Hours(_) => "hour" case _ => "minute";
    var text := Phrase(a.n, unit);
    assert text == (digits + " ") + (unit + (if a.n > 1 then "s" else "") + " ago");
    ParseNatToString(a.n);
  }

  lemma Examples()
    ensures FormatTimeAgo(59999) == "Just now"
    ensures FormatTimeAgo(-5000) == "Just now"
    ensures Classify(60000) == Minutes(1)
    ensures Classify(3599999) == Minutes(59)
    ensures Classify(3600000) == Hours(1)
    ensures Classify(86399999) == Hours(23)
    ensures Classify(86400000) == Days(1)
    ensures Classify(2 * 86400000) == Days(2)
  {
  }
}
