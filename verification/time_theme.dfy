/**
  The time-of-day theme: the hour picks one of three themes, and the page's
  root element carries exactly one theme class. The hour is a parameter
  instead of the clock; the class list is a set of names.
 */
module TimeTheme {
  import opened Strings

  datatype Theme = Morning | Day | Night

  /** The class name of a theme, as the type's string literals spell it. */
  function ClassName(t: Theme): string {
    match t
    case Morning => "morning"
    case Day => "day"
    case Night => "night"
  }

  const ThemeClasses: set<string> := {"morning", "day", "night"}

  /** `getTimeTheme`, at a given hour. */
  function ThemeAt(hour: int): (t: Theme)
    ensures t == Morning <==> 5 <= hour < 12
    ensures t == Day <==> 12 <= hour < 18
    ensures t == Night <==> hour < 5 || hour >= 18
  {
    if hour >= 5 && hour < 12 then Morning
    else if hour >= 12 && hour < 18 then Day
    else Night
  }

  lemma ThemeBoundaries()
    ensures ThemeAt(0) == Night && ThemeAt(4) == Night
    ensures ThemeAt(5) == Morning && ThemeAt(11) == Morning
    ensures ThemeAt(12) == Day && ThemeAt(17) == Day
    ensures ThemeAt(18) == Night && ThemeAt(23) == Night
  {
  }

  /** How many of the hours `0 .. n-1` get theme `t`. */
  function HoursWith(t: Theme, n: nat): nat {
    if n == 0 then 0 else HoursWith(t, n - 1) + (if ThemeAt(n - 1) == t then 1 else 0)
  }

  /** The number of hours before `n` that fall in the half-open interval `[lo, hi)`. */
  function Overlap(lo: nat, hi: nat, n: nat): nat
    requires lo <= hi
  {
    if n <= lo then 0 else if n <= hi then n - lo else hi - lo
  }

  lemma {:induction false} HoursWithCounts(n: nat)
    ensures HoursWith(Morning, n) == Overlap(5, 12, n)
    ensures HoursWith(Day, n) == Overlap(12, 18, n)
    ensures HoursWith(Night, n) == n - Overlap(5, 18, n)
  {
    if n > 0 {
      HoursWithCounts(n - 1);
    }
  }

  /** Over a day, seven hours are morning, six are day, eleven are night. */
  lemma HoursPerTheme()
    ensures HoursWith(Morning, 24) == 7
    ensures HoursWith(Day, 24) == 6
    ensures HoursWith(Night, 24) == 11
  {
    HoursWithCounts(24);
  }

  /** `applyTimeTheme`: drop every theme class, then add the current one. */
  function ApplyTheme(classes: set<string>, hour: int): (r: set<string>)
    ensures r * ThemeClasses == {ClassName(ThemeAt(hour))}
    ensures forall c :: c !in ThemeClasses ==> (c in r <==> c in classes)
  {
    (classes - ThemeClasses) + {ClassName(ThemeAt(hour))}
  }

  lemma ApplyThemeIdempotent(classes: set<string>, hour: int)
    ensures ApplyTheme(ApplyTheme(classes, hour), hour) == ApplyTheme(classes, hour)
  {
  }

  /** Applying at a later hour overrides an earlier application entirely. */
  lemma LastApplicationWins(classes: set<string>, h1: int, h2: int)
    ensures ApplyTheme(ApplyTheme(classes, h1), h2) == ApplyTheme(classes, h2)
  {
  }

  /**
    `getThemeDescription`. The literals in the source carry a sun, sun and
    moon emoji whose UTF-8 bytes were read back through a single-byte code page; the
    characters here are the ones the file holds.
   */
  function Description(t: Theme): (r: string)
    ensures StartsWith(r, Salutation(t))
  {
    match t
    case Morning => Salutation(t) + "\U{E2}\U{2DC}\U{20AC}\U{EF}\U{B8} Starting fresh with warm golden tones."
    case Day => Salutation(t) + "\U{11F}\U{178}\U{152}\U{A4}\U{EF}\U{B8} Bright and energetic vibes."
    case Night => Salutation(t) + "\U{11F}\U{178}\U{152}\U{2122} Relaxing with darker tones."
  }

  function Salutation(t: Theme): string {
    match t
    case Morning => "Good morning! "
    case Day => "Good afternoon! "
    case Night => "Good evening! "
  }

  lemma DescriptionsDistinct(a: Theme, b: Theme)
    requires a != b
    ensures Description(a) != Description(b)
  {
    assert Description(a)[5] != Description(b)[5];
  }
}
