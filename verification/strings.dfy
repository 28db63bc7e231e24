/** Optional values, used for the source's `undefined` and "not found" cases. */
module Options {
  datatype Option<+T> = None | Some(value: T)
}

/**
  The string primitives the site's logic leans on, written the way JavaScript
  defines them: `toLowerCase` (ASCII letters only), `trim` (the ECMAScript
  white-space and line-terminator set), `includes`, `startsWith`, `endsWith`,
  `split` with a string separator, `join`, the UTF-16 `length`, and the
  decimal rendering of a whole number inside a template literal.
 */
module Strings {
  import opened Options

  // ---------------------------------------------------------------------------
  // Lower-casing
  // ---------------------------------------------------------------------------

  predicate IsUpper(c: char) {
    'A' <= c <= 'Z'
  }

  function LowerChar(c: char): (r: char)
    ensures !IsUpper(r)
    ensures !IsUpper(c) ==> r == c
  {
    if IsUpper(c) then (c as int + 32) as char else c
  }

  /** Model of `toLowerCase` on ASCII letters; every other character is kept. */
  function Lower(s: string): (r: string)
    ensures |r| == |s|
    ensures forall i :: 0 <= i < |s| ==> r[i] == LowerChar(s[i])
    ensures NoUpper(r)
  {
    seq(|s|, i requires 0 <= i < |s| => LowerChar(s[i]))
  }

  predicate NoUpper(s: string) {
    forall i :: 0 <= i < |s| ==> !IsUpper(s[i])
  }

  /** Lower-casing a string without capitals changes nothing. */
  lemma LowerOfNoUpper(s: string)
    requires NoUpper(s)
    ensures Lower(s) == s
  {
  }

  // ---------------------------------------------------------------------------
  // Trimming
  // ---------------------------------------------------------------------------

  /** The ECMAScript WhiteSpace and LineTerminator code points. */
  predicate IsSpace(c: char) {
    || c == '\t' || c == '\n' || c == '\U{0B}' || c == '\U{0C}' || c == '\r'
    || c == ' ' || c == '\U{A0}' || c == '\U{1680}'
    || ('\U{2000}' <= c <= '\U{200A}')
    || c == '\U{2028}' || c == '\U{2029}' || c == '\U{202F}' || c == '\U{205F}'
    || c == '\U{3000}' || c == '\U{FEFF}'
  }

  predicate AllSpace(s: string) {
    forall i :: 0 <= i < |s| ==> IsSpace(s[i])
  }

  /** Drops the longest all-space prefix. */
  function TrimStart(s: string): (r: string)
    ensures |r| <= |s| && r == s[|s| - |r|..]
    ensures AllSpace(s[..|s| - |r|])
    ensures |r| == 0 || !IsSpace(r[0])
    decreases |s|
  {
    if |s| > 0 && IsSpace(s[0]) then
      var r := TrimStart(s[1..]);
      assert s[1..][|s| - 1 - |r|..] == s[|s| - |r|..];
      SpaceBefore(s, |s| - |r|);
      r
    else s
  }

  /** A leading space followed by an all-space run is an all-space prefix. */
  lemma SpaceBefore(s: string, n: nat)
    requires 0 < n <= |s| && IsSpace(s[0]) && AllSpace(s[1..][..n - 1])
    ensures AllSpace(s[..n])
  {
    forall i | 0 <= i < n ensures IsSpace(s[..n][i]) {
      if i > 0 {
        assert s[..n][i] == s[1..][..n - 1][i - 1];
      }
    }
  }

  /** Drops the longest all-space suffix. */
  function TrimEnd(s: string): (r: string)
    ensures |r| <= |s| && r == s[..|r|]
    ensures AllSpace(s[|r|..])
    ensures |r| == 0 || !IsSpace(r[|r| - 1])
    decreases |s|
  {
    if |s| > 0 && IsSpace(s[|s| - 1]) then TrimEnd(s[..|s| - 1]) else s
  }

  /** Model of `trim`: the slice left after both space runs are removed. */
  function Trim(s: string): (r: string)
    ensures |r| <= |s|
    ensures r == [] || (!IsSpace(r[0]) && !IsSpace(r[|r| - 1]))
  {
    var t := TrimStart(s);
    var r := TrimEnd(t);
    assert |r| > 0 ==> r[0] == t[0];
    r
  }

  /** Trim keeps exactly the characters between the leading and trailing space runs. */
  lemma TrimIsSlice(s: string)
    ensures var r := Trim(s);
            exists i :: 0 <= i && i + |r| <= |s|
                        && r == s[i..i + |r|]
                        && AllSpace(s[..i]) && AllSpace(s[i + |r|..])
  {
    var t := TrimStart(s);
    var r := TrimEnd(t);
    var i := |s| - |t|;
    assert r == s[i..i + |r|] by {
      assert t[..|r|] == s[i..i + |r|];
    }
    var tail := s[i + |r|..];
    assert AllSpace(tail) by {
      forall k | 0 <= k < |tail|
        ensures IsSpace(tail[k])
      {
        assert tail[k] == t[|r|..][k];
      }
    }
    assert Trim(s) == r;
    assert 0 <= i && i + |r| <= |s| && r == s[i..i + |r|] && AllSpace(s[..i]) && AllSpace(s[i + |r|..]);
  }

  /** A string that starts and ends with a non-space is its own trim. */
  lemma TrimOfTrimmed(r: string)
    requires r == [] || (!IsSpace(r[0]) && !IsSpace(r[|r| - 1]))
    ensures Trim(r) == r
  {
    var t := TrimStart(r);
    assert |t| == |r|;
    var e := TrimEnd(t);
    assert |e| == |t|;
  }

  lemma {:induction false} TrimStartSkips(a: string, t: string)
    requires AllSpace(a) && (|t| == 0 || !IsSpace(t[0]))
    ensures TrimStart(a + t) == t
    decreases |a|
  {
    if |a| > 0 {
      assert (a + t)[1..] == a[1..] + t;
      TrimStartSkips(a[1..], t);
    } else {
      assert a + t == t;
    }
  }

  lemma {:induction false} TrimEndSkips(t: string, b: string)
    requires AllSpace(b) && (|t| == 0 || !IsSpace(t[|t| - 1]))
    ensures TrimEnd(t + b) == t
    decreases |b|
  {
    if |b| > 0 {
      assert (t + b)[..|t + b| - 1] == t + b[..|b| - 1];
      TrimEndSkips(t, b[..|b| - 1]);
    } else {
      assert t + b == t;
    }
  }

  /** Surrounding spaces are exactly what trim removes. */
  lemma TrimAround(a: string, r: string, b: string)
    requires AllSpace(a) && AllSpace(b)
    requires |r| > 0 && !IsSpace(r[0]) && !IsSpace(r[|r| - 1])
    ensures Trim(a + r + b) == r
  {
    assert a + r + b == a + (r + b);
    TrimStartSkips(a, r + b);
    TrimEndSkips(r, b);
  }

  lemma TrimIdempotent(s: string)
    ensures Trim(Trim(s)) == Trim(s)
  {
    TrimOfTrimmed(Trim(s));
  }

  /** Trimming a string without capitals yields a string without capitals. */
  lemma TrimKeepsNoUpper(s: string)
    requires NoUpper(s)
    ensures NoUpper(Trim(s))
  {
    TrimIsSlice(s);
  }

  /** Trim of an all-space string is empty, and the empty result means all space. */
  lemma TrimEmptyIff(s: string)
    ensures Trim(s) == [] <==> AllSpace(s)
  {
    TrimIsSlice(s);
    if Trim(s) == [] {
      var i :| 0 <= i && i <= |s| && AllSpace(s[..i]) && AllSpace(s[i..]);
      forall k | 0 <= k < |s| ensures IsSpace(s[k]) {
        if k < i { assert s[..i][k] == s[k]; } else { assert s[i..][k - i] == s[k]; }
      }
    }
  }

  // ---------------------------------------------------------------------------
  // Substrings
  // ---------------------------------------------------------------------------

  predicate StartsWith(s: string, p: string) {
    |p| <= |s| && s[..|p|] == p
  }

  predicate EndsWith(s: string, p: string) {
    |p| <= |s| && s[|s| - |p|..] == p
  }

  ghost predicate OccursAt(s: string, k: string, i: int) {
    0 <= i && i + |k| <= |s| && s[i..i + |k|] == k
  }

  /** Model of `s.includes(k)`. */
  predicate Contains(s: string, k: string)
    decreases |s|
  {
    StartsWith(s, k) || (|s| > 0 && Contains(s[1..], k))
  }

  lemma OccursShift(s: string, k: string, i: int)
    requires |s| > 0 && 0 <= i
    ensures OccursAt(s[1..], k, i) <==> OccursAt(s, k, i + 1)
  {
    if 0 <= i && i + |k| <= |s| - 1 {
      assert s[1..][i..i + |k|] == s[i + 1..i + 1 + |k|];
    }
  }

  /** `includes` holds exactly when the keyword occurs at some position. */
  lemma {:induction false} ContainsIff(s: string, k: string)
    ensures Contains(s, k) <==> exists i :: OccursAt(s, k, i)
    decreases |s|
  {
    if StartsWith(s, k) {
      assert OccursAt(s, k, 0);
    } else if |s| > 0 {
      ContainsIff(s[1..], k);
      ShiftAll(s, k);
      if Contains(s[1..], k) {
        var i :| OccursAt(s[1..], k, i);
        assert OccursAt(s, k, i + 1);
      }
      if exists i :: OccursAt(s, k, i) {
        var i :| OccursAt(s, k, i);
        assert OccursAt(s[1..], k, i - 1);
      }
    }
  }

  lemma ShiftAll(s: string, k: string)
    requires |s| > 0
    ensures !OccursAt(s, k, 0) <== !StartsWith(s, k)
    ensures forall j :: 1 <= j ==> (OccursAt(s, k, j) <==> OccursAt(s[1..], k, j - 1))
  {
    forall j | 1 <= j
      ensures OccursAt(s, k, j) <==> OccursAt(s[1..], k, j - 1)
    {
      OccursShift(s, k, j - 1);
    }
  }

  /** A substring of a substring is a substring. */
  lemma ContainsTransitive(a: string, b: string, c: string)
    requires Contains(a, b) && Contains(b, c)
    ensures Contains(a, c)
  {
    ContainsIff(a, b);
    ContainsIff(b, c);
    var i :| OccursAt(a, b, i);
    var j :| OccursAt(b, c, j);
    assert b == a[i..i + |b|];
    forall t | 0 <= t < |c|
      ensures c[t] == a[i + j + t]
    {
      assert c[t] == b[j + t];
    }
    assert c == a[i + j..i + j + |c|];
    assert OccursAt(a, c, i + j);
    ContainsIff(a, c);
  }

  lemma ContainsLength(s: string, k: string)
    requires Contains(s, k)
    ensures |k| <= |s|
  {
    ContainsIff(s, k);
  }

  /** A string cannot occur inside one lacking one of its characters. */
  lemma MissingCharRulesOut(s: string, k: string, c: char)
    requires c in k && c !in s
    ensures !Contains(s, k)
  {
    ContainsIff(s, k);
  }

  /** A string occurs inside any string it prefixes or suffixes. */
  lemma ContainsOfConcat(a: string, k: string, b: string)
    ensures Contains(a + k + b, k)
  {
    assert OccursAt(a + k + b, k, |a|) by {
      assert (a + k + b)[|a|..|a| + |k|] == k;
    }
    ContainsIff(a + k + b, k);
  }

  /** Position of the first occurrence of `d` in `s`, as `indexOf` computes it. */
  function IndexOf(s: string, d: string): (r: Option<nat>)
    ensures r.Some? ==> OccursAt(s, d, r.value)
    ensures r.Some? ==> forall j :: 0 <= j < r.value ==> !OccursAt(s, d, j)
    ensures r.None? ==> forall j :: !OccursAt(s, d, j)
    decreases |s|
  {
    if StartsWith(s, d) then Some(0)
    else if |s| == 0 then None
    else
      ShiftAll(s, d);
      match IndexOf(s[1..], d)
      case Some(i) => Some(i + 1)
      case None => None
  }

  // ---------------------------------------------------------------------------
  // Split and join with a string separator
  // ---------------------------------------------------------------------------

  /** Model of `parts.join(d)`. */
  function Join(parts: seq<string>, d: string): string
    decreases |parts|
  {
    if |parts| == 0 then ""
    else if |parts| == 1 then parts[0]
    else parts[0] + d + Join(parts[1..], d)
  }

  /**
    Model of `s.split(d)` for a non-empty string separator: cut at each
    leftmost non-overlapping occurrence. Joining the pieces back gives `s`,
    no piece holds the separator, and no occurrence starts inside a piece
    before the cut that ends it (so each cut is the leftmost one left).
   */
  function SplitOn(s: string, d: string): (r: seq<string>)
    requires |d| > 0
    ensures |r| >= 1
    ensures Join(r, d) == s
    ensures forall p :: p in r ==> !Contains(p, d)
    ensures forall k :: 0 <= k < |r| - 1 ==> !Contains(r[k] + d[..|d| - 1], d)
    decreases |s|
  {
    match IndexOf(s, d)
    case None =>
      ContainsIff(s, d);
      [s]
    case Some(i) =>
      var head := s[..i];
      var rest := SplitOn(s[i + |d|..], d);
      assert s == head + d + s[i + |d|..];
      PrefixBeforeFirst(s, d, i);
      CutBeforeFirst(s, d, i);
      [head] + rest
  }

  /**
    The pieces of `split`, described without scanning: they join back to
    `s`, the last one holds no separator, and no separator starts inside an
    earlier piece before its cut.
   */
  ghost predicate CutsLeftmost(s: string, d: string, r: seq<string>)
    requires |d| > 0
  {
    |r| >= 1 && Join(r, d) == s && !Contains(r[|r| - 1], d) &&
    forall k :: 0 <= k < |r| - 1 ==> !Contains(r[k] + d[..|d| - 1], d)
  }

  /** Up to an occurrence of `d` at `i`, text with `d` cut short there agrees with `s` on every window of `d`'s length. */
  lemma WindowBeforeCut(s: string, d: string, i: nat, j: nat)
    requires |d| > 0 && OccursAt(s, d, i)
    requires j + |d| <= i + |d| - 1
    ensures (s[..i] + d[..|d| - 1])[j..j + |d|] == s[j..j + |d|]
  {
    var t := s[..i] + d[..|d| - 1];
    assert |t| == i + |d| - 1;
    forall x | j <= x < j + |d|
      ensures t[x] == s[x]
    {
      if x < i {
        assert t[x] == s[..i][x];
      } else {
        assert t[x] == d[x - i];
        assert s[i..i + |d|][x - i] == s[x];
      }
    }
  }

  /** Text up to the first occurrence, followed by all but the last character of `d`, holds no occurrence. */
  lemma CutBeforeFirst(s: string, d: string, i: nat)
    requires |d| > 0 && OccursAt(s, d, i)
    requires forall j :: 0 <= j < i ==> !OccursAt(s, d, j)
    ensures !Contains(s[..i] + d[..|d| - 1], d)
  {
    var t := s[..i] + d[..|d| - 1];
    forall j | 0 <= j && j + |d| <= |t|
      ensures !OccursAt(t, d, j)
    {
      WindowBeforeCut(s, d, i, j);
      assert !OccursAt(s, d, j);
    }
    ContainsIff(t, d);
  }

  /** When no occurrence starts inside `a` before the cut, the first occurrence in `a + d + b` is right after `a`. */
  lemma FirstCutAt(a: string, d: string, b: string)
    requires |d| > 0 && !Contains(a + d[..|d| - 1], d)
    ensures IndexOf(a + d + b, d) == Some(|a|)
  {
    var s := a + d + b;
    assert s[|a|..|a| + |d|] == d;
    assert OccursAt(s, d, |a|);
    assert s[..|a|] == a;
    ContainsIff(a + d[..|d| - 1], d);
    forall j | 0 <= j < |a|
      ensures !OccursAt(s, d, j)
    {
      WindowBeforeCut(s, d, |a|, j);
      assert !OccursAt(a + d[..|d| - 1], d, j);
    }
    match IndexOf(s, d)
    case None =>
    case Some(x) =>
      assert !(x < |a|);
      assert !(|a| < x);
  }

  /** The scan and the description agree: `SplitOn` returns exactly the pieces that cut leftmost. */
  lemma {:induction false} SplitOnIsTheSplit(s: string, d: string, r: seq<string>)
    requires |d| > 0
    ensures CutsLeftmost(s, d, r) <==> r == SplitOn(s, d)
    decreases |r|
  {
    if r == SplitOn(s, d) {
      assert r[|r| - 1] in r;
    }
    if CutsLeftmost(s, d, r) {
      if |r| == 1 {
        SplitWithoutSeparator(s, d);
      } else {
        var tail := Join(r[1..], d);
        assert s == r[0] + d + tail;
        FirstCutAt(r[0], d, tail);
        assert s[..|r[0]|] == r[0];
        assert s[|r[0]| + |d|..] == tail;
        assert CutsLeftmost(tail, d, r[1..]) by {
          forall k | 0 <= k < |r[1..]| - 1
            ensures !Contains(r[1..][k] + d[..|d| - 1], d)
          {
            assert r[1..][k] == r[k + 1];
          }
        }
        SplitOnIsTheSplit(tail, d, r[1..]);
        assert r == [r[0]] + r[1..];
      }
    }
  }

  /** The text before the first occurrence of `d` holds no occurrence of it. */
  lemma PrefixBeforeFirst(s: string, d: string, i: nat)
    requires |d| > 0 && i <= |s|
    requires forall j :: 0 <= j < i ==> !OccursAt(s, d, j)
    ensures !Contains(s[..i], d)
  {
    ContainsIff(s[..i], d);
    forall j ensures !OccursAt(s[..i], d, j) {
      if 0 <= j && j + |d| <= i {
        assert !OccursAt(s, d, j);
        assert s[..i][j..j + |d|] == s[j..j + |d|];
      }
    }
  }

  /** When `a` lacks the separator's first character, the first occurrence in `a + d + b` is right after `a`. */
  lemma IndexOfAfter(a: string, d: string, b: string)
    requires |d| > 0 && d[0] !in a
    ensures IndexOf(a + d + b, d) == Some(|a|)
  {
    var s := a + d + b;
    assert s[|a|..|a| + |d|] == d;
    assert OccursAt(s, d, |a|);
  }

  /** Cutting at the first separator when `a` cannot hold one. */
  lemma SplitAfter(a: string, d: string, b: string)
    requires |d| > 0 && d[0] !in a
    ensures SplitOn(a + d + b, d) == [a] + SplitOn(b, d)
  {
    var s := a + d + b;
    IndexOfAfter(a, d, b);
    assert s[..|a|] == a;
    assert s[|a| + |d|..] == b;
  }

  /** Splitting text without the separator yields the text as the only piece. */
  lemma SplitWithoutSeparator(s: string, d: string)
    requires |d| > 0 && !Contains(s, d)
    ensures SplitOn(s, d) == [s]
  {
    ContainsIff(s, d);
  }

  /** Four backticks split on a fence: the cut comes first, leaving one backtick after it. */
  lemma FourTicksOnAFence()
    ensures SplitOn("````", "```") == ["", "`"]
  {
    assert "````" == "" + "```" + "`";
    SplitAfter("", "```", "`");
    SplitWithoutSeparator("`", "```");
  }

  // ---------------------------------------------------------------------------
  // Lengths and numbers as JavaScript sees them
  // ---------------------------------------------------------------------------

  /** Code points above the Basic Multilingual Plane take two UTF-16 units. */
  function Utf16Units(c: char): nat {
    if c as int >= 0x1_0000 then 2 else 1
  }

  /** Model of `String.prototype.length`, which counts UTF-16 code units. */
  function Utf16Length(s: string): (n: nat)
    ensures |s| <= n <= 2 * |s|
    ensures (forall i :: 0 <= i < |s| ==> s[i] as int < 0x1_0000) ==> n == |s|
    decreases |s|
  {
    if |s| == 0 then 0 else Utf16Units(s[0]) + Utf16Length(s[1..])
  }

  predicate IsDigit(c: char) {
    '0' <= c <= '9'
  }

  function DigitChar(d: nat): (c: char)
    requires d < 10
    ensures IsDigit(c) && c as int - '0' as int == d
  {
    ('0' as int + d) as char
  }

  /** Decimal rendering of a whole number, as `${n}` prints it. */
  function NatToString(n: nat): (r: string)
    ensures |r| >= 1
    ensures forall i :: 0 <= i < |r| ==> IsDigit(r[i])
    ensures |r| > 1 ==> r[0] != '0'
    decreases n
  {
    if n < 10 then [DigitChar(n)] else NatToString(n / 10) + [DigitChar(n % 10)]
  }

  /** Reads back a string of decimal digits. */
  function ParseNat(s: string): nat
    requires forall i :: 0 <= i < |s| ==> IsDigit(s[i])
    decreases |s|
  {
    if |s| == 0 then 0
    else
      var last := s[|s| - 1];
      assert IsDigit(last);
      ParseNat(s[..|s| - 1]) * 10 + (last as int - '0' as int)
  }

  /** Rendering a number and reading it back gives the number. */
  lemma {:induction false} ParseNatToString(n: nat)
    ensures ParseNat(NatToString(n)) == n
    decreases n
  {
    if n >= 10 {
      var r := NatToString(n);
      assert r[..|r| - 1] == NatToString(n / 10);
      ParseNatToString(n / 10);
    }
  }

  /** Distinct numbers render to distinct strings. */
  lemma NatToStringInjective(m: nat, n: nat)
    requires NatToString(m) == NatToString(n)
    ensures m == n
  {
    ParseNatToString(m);
    ParseNatToString(n);
  }
}
