/**
  How the chat panel turns a message's text into display blocks: the text is
  split on triple backticks; odd-numbered parts are code blocks whose first
  line (the language tag) is dropped; the other parts are split on the regular
  expression `(\*\*.*?\*\*)` and each segment that starts and ends with `**` is
  shown bold without its markers.
 */
module MessageRender {
  import opened Options
  import opened Strings
  import Surprises

  const Fence: string := "```"
  const Newline: string := "\n"

  datatype Inline = Strong(text: string) | Span(text: string)
  datatype Block = Code(code: string) | Prose(segments: seq<Inline>)

  // ---------------------------------------------------------------------------
  // Code parts
  // ---------------------------------------------------------------------------

  /** `part.split('\n').slice(1).join('\n')` */
  function CodeOf(part: string): string {
    Join(SplitOn(part, Newline)[1..], Newline)
  }

  /** Everything after the first newline, or nothing when there is none. */
  function AfterFirstNewline(part: string): string {
    match IndexOf(part, Newline)
    case None => ""
    case Some(i) => part[i + 1..]
  }

  /**
    The displayed code is everything after the part's first newline, and is
    empty when the part has no newline.
   */
  lemma CodeIsAfterFirstNewline(part: string)
    ensures IndexOf(part, Newline).None? ==> CodeOf(part) == ""
    ensures IndexOf(part, Newline).Some? ==>
              CodeOf(part) == part[IndexOf(part, Newline).value + 1..]
  {
    match IndexOf(part, Newline)
    case None =>
      assert SplitOn(part, Newline) == [part];
    case Some(i) =>
      assert SplitOn(part, Newline)[1..] == SplitOn(part[i + 1..], Newline);
  }

  // ---------------------------------------------------------------------------
  // Bold segments
  // ---------------------------------------------------------------------------

  /** The characters a regular-expression `.` does not match. */
  predicate IsLineTerminator(c: char) {
    c == '\n' || c == '\r' || c == '\U{2028}' || c == '\U{2029}'
  }

  predicate StarPairAt(s: string, j: int) {
    0 <= j && j + 2 <= |s| && s[j] == '*' && s[j + 1] == '*'
  }

  /**
    A match of `\*\*.*?\*\*` in `s` starting at `q` and ending at `e`: an
    opening pair, a run of non-terminators with no earlier closing pair, and
    the closing pair.
   */
  ghost predicate BoldMatch(s: string, q: int, e: int) {
    && 0 <= q && q + 4 <= e <= |s|
    && StarPairAt(s, q) && StarPairAt(s, e - 2)
    && (forall j :: q + 2 <= j < e - 2 ==> !IsLineTerminator(s[j]) && !StarPairAt(s, j))
  }

  /** Lazy search for the closing pair, scanning from `j`. */
  function CloseFrom(s: string, q: nat, j: nat): (r: Option<nat>)
    requires q + 2 <= j <= |s| && StarPairAt(s, q)
    requires forall m :: q + 2 <= m < j ==> !IsLineTerminator(s[m]) && !StarPairAt(s, m)
    ensures r.Some? ==> BoldMatch(s, q, r.value)
    ensures r.None? ==> forall e :: !BoldMatch(s, q, e)
    decreases |s| - j
  {
    if StarPairAt(s, j) then Some(j + 2)
    else if j < |s| && !IsLineTerminator(s[j]) then CloseFrom(s, q, j + 1)
    else None
  }

  /** The match of the bold pattern attempted exactly at position `q`. */
  function MatchAt(s: string, q: nat): (r: Option<nat>)
    ensures r.Some? ==> BoldMatch(s, q, r.value)
    ensures r.None? ==> forall e :: !BoldMatch(s, q, e)
  {
    if StarPairAt(s, q) && q + 2 <= |s| then CloseFrom(s, q, q + 2) else None
  }

  /** No match of the bold pattern starts at a position in `[a, b)`. */
  ghost predicate NoMatchIn(s: string, a: int, b: int) {
    forall j, e :: a <= j < b ==> !BoldMatch(s, j, e)
  }

  /**
    What `split` with one capturing group yields from position `p` on: a text
    piece in which no match starts, and, unless that piece runs to the end,
    the match that ends it, captured whole, followed by the split of the rest.
   */
  ghost predicate SplitsAs(s: string, p: nat, r: seq<string>)
    decreases |r|
  {
    if |r| == 1 then p <= |s| && r[0] == s[p..] && NoMatchIn(s, p, |s|)
    else
      |r| >= 3 &&
      var q := p + |r[0]|;
      var e := q + |r[1]|;
      && e <= |s|
      && r[0] == s[p..q] && NoMatchIn(s, p, q)
      && BoldMatch(s, q, e) && r[1] == s[q..e]
      && SplitsAs(s, e, r[2..])
  }

  /** The scan of `split`: `p` is where the current text piece starts, `q` the next match attempt. */
  function SplitFrom(s: string, p: nat, q: nat): (r: seq<string>)
    requires p <= q <= |s|
    requires NoMatchIn(s, p, q)
    ensures |r| % 2 == 1
    ensures Join(r, "") == s[p..]
    ensures SplitsAs(s, p, r)
    decreases |s| - q
  {
    if q == |s| then [s[p..]]
    else match MatchAt(s, q)
      case Some(e) =>
        var rest := SplitFrom(s, e, e);
        assert s[p..] == s[p..q] + s[q..e] + s[e..];
        assert ([s[p..q], s[q..e]] + rest)[2..] == rest;
        [s[p..q], s[q..e]] + rest
      case None => SplitFrom(s, p, q + 1)
  }

  /** `part.split(/(\*\*.*?\*\*)/)`: text pieces alternating with the captured bold matches. */
  function BoldSplit(s: string): (r: seq<string>)
    ensures |r| % 2 == 1
    ensures Join(r, "") == s
    ensures SplitsAs(s, 0, r)
  {
    SplitFrom(s, 0, 0)
  }

  /** The lazy pattern has at most one match starting at each position. */
  lemma MatchEndUnique(s: string, q: int, e1: int, e2: int)
    requires BoldMatch(s, q, e1) && BoldMatch(s, q, e2)
    ensures e1 == e2
  {
  }

  /** Only one sequence of pieces splits the text as `split` does. */
  lemma {:induction false} SplitsAsUnique(s: string, p: nat, r1: seq<string>, r2: seq<string>)
    requires SplitsAs(s, p, r1) && SplitsAs(s, p, r2)
    ensures r1 == r2
    decreases |r1|
  {
    if |r1| >= 3 && |r2| >= 3 {
      var q := p + |r1[0]|;
      var e1 := q + |r1[1]|;
      var e2 := p + |r2[0]| + |r2[1]|;
      assert p + |r2[0]| == q;
      MatchEndUnique(s, q, e1, e2);
      SplitsAsUnique(s, e1, r1[2..], r2[2..]);
      assert r1 == r1[..2] + r1[2..] && r2 == r2[..2] + r2[2..];
    } else if |r1| == 1 && |r2| == 1 {
      assert r1 == [r1[0]] && r2 == [r2[0]];
    }
  }

  /** `BoldSplit` is exactly the split that captures every lazy bold match, scanning left to right. */
  lemma BoldSplitIsTheSplit(s: string, r: seq<string>)
    ensures SplitsAs(s, 0, r) <==> r == BoldSplit(s)
  {
    if SplitsAs(s, 0, r) {
      SplitsAsUnique(s, 0, r, BoldSplit(s));
    }
  }

  /** Where piece `k` starts, counted from the start of the first piece. */
  function Offset(r: seq<string>, k: nat): nat
    requires k <= |r|
  {
    if k == 0 then 0 else Offset(r, k - 1) + |r[k - 1]|
  }

  lemma {:induction false} OffsetDrop(r: seq<string>, k: nat)
    requires 2 <= k <= |r|
    ensures Offset(r, k) == |r[0]| + |r[1]| + Offset(r[2..], k - 2)
  {
    if k == 2 {
      assert Offset(r, 1) == |r[0]|;
    } else {
      OffsetDrop(r, k - 1);
      assert r[2..][k - 3] == r[k - 1];
    }
  }

  /**
    Piece by piece: piece `k` is the text at its own offset; an odd-numbered
    piece is a match of the bold pattern there, and no match starts anywhere
    inside an even-numbered piece.
   */
  lemma {:induction false} PieceAt(s: string, p: nat, r: seq<string>, k: nat, at: nat)
    requires SplitsAs(s, p, r) && k < |r| && at == p + Offset(r, k)
    ensures at + |r[k]| <= |s| && r[k] == s[at..at + |r[k]|]
    ensures k % 2 == 1 ==> BoldMatch(s, at, at + |r[k]|)
    ensures k % 2 == 0 ==> NoMatchIn(s, at, at + |r[k]|)
    decreases |r|
  {
    if k >= 2 {
      var e := p + |r[0]| + |r[1]|;
      OffsetDrop(r, k);
      PieceAt(s, e, r[2..], k - 2, at);
    }
  }

  /** Every bold match is captured, and nothing else is: the pieces of `BoldSplit` in place. */
  lemma BoldSplitPieces(s: string, k: nat)
    requires k < |BoldSplit(s)|
    ensures var r := BoldSplit(s);
            var at := Offset(r, k);
            && at + |r[k]| <= |s| && r[k] == s[at..at + |r[k]|]
            && (k % 2 == 1 ==> BoldMatch(s, at, at + |r[k]|))
            && (k % 2 == 0 ==> NoMatchIn(s, at, at + |r[k]|))
  {
    PieceFromStart(s, BoldSplit(s), k);
  }

  lemma PieceFromStart(s: string, r: seq<string>, k: nat)
    requires SplitsAs(s, 0, r) && k < |r|
    ensures var at := Offset(r, k);
            && at + |r[k]| <= |s| && r[k] == s[at..at + |r[k]|]
            && (k % 2 == 1 ==> BoldMatch(s, at, at + |r[k]|))
            && (k % 2 == 0 ==> NoMatchIn(s, at, at + |r[k]|))
  {
    PieceAt(s, 0, r, k, Offset(r, k));
  }

  /** An odd-numbered piece of a split has the shape of a bold match. */
  lemma CapturedShape(s: string, p: nat, r: seq<string>, k: nat)
    requires SplitsAs(s, p, r) && k < |r| && k % 2 == 1
    ensures StartsWith(r[k], "**") && EndsWith(r[k], "**") && |r[k]| >= 4
            && forall m :: 2 <= m < |r[k]| - 2 ==> !IsLineTerminator(r[k][m])
  {
    var at := p + Offset(r, k);
    PieceAt(s, p, r, k, at);
    MatchedText(s, at, at + |r[k]|);
  }

  /** `segment.slice(2, -2)`, which is empty once the segment is shorter than four. */
  function Inner(segment: string): string {
    if |segment| >= 4 then segment[2..|segment| - 2] else ""
  }

  /** One bold-split segment as the panel shows it. */
  function RenderSegment(segment: string): (r: Inline)
    ensures r.Strong? <==> StartsWith(segment, "**") && EndsWith(segment, "**")
    ensures r.Span? ==> r.text == segment
    ensures r.Strong? ==> r.text == Inner(segment)
  {
    if StartsWith(segment, "**") && EndsWith(segment, "**") then Strong(Inner(segment))
    else Span(segment)
  }

  /** A text part between fences, segment by segment. */
  function ProseOf(part: string): Block {
    Prose(Runs(BoldSplit(part)))
  }

  /** Each segment rendered in turn. */
  function Runs(segments: seq<string>): seq<Inline> {
    seq(|segments|, j requires 0 <= j < |segments| => RenderSegment(segments[j]))
  }

  /** The markup a run stands for: a bold run between `**` pairs, a plain run as it is. */
  function Markup(x: Inline): string {
    match x
    case Strong(t) => "**" + t + "**"
    case Span(t) => t
  }

  /**
    How one run shows its piece: bold exactly when the piece opens and closes
    with `**`, and written back as the piece itself, except that a bare `**`
    or `***` shows as an empty bold run.
   */
  predicate Shows(x: Inline, piece: string) {
    && (x.Strong? <==> StartsWith(piece, "**") && EndsWith(piece, "**"))
    && (Markup(x) == piece || (piece in {"**", "***"} && x == Strong("")))
  }

  /** The runs of a prose part: one per piece of its bold split, every captured piece bold. */
  ghost predicate ShowsProse(runs: seq<Inline>, part: string) {
    var pieces := BoldSplit(part);
    && |runs| == |pieces|
    && (forall j :: 0 <= j < |runs| && j % 2 == 1 ==> runs[j].Strong?)
    && (forall j :: 0 <= j < |runs| ==> Shows(runs[j], pieces[j]))
  }

  /**
    A message's text as the panel lays it out: the parts between fences
    alternate between prose and code, starting with prose; a code block shows
    what follows its part's first line, and a prose block shows its part run
    by run.
   */
  function Render(text: string): (r: seq<Block>)
    ensures |r| == |SplitOn(text, Fence)|
    ensures forall i :: 0 <= i < |r| ==> (r[i].Code? <==> i % 2 == 1)
    ensures forall i :: 0 <= i < |r| && i % 2 == 1 ==>
              r[i].code == AfterFirstNewline(SplitOn(text, Fence)[i])
    ensures forall i :: 0 <= i < |r| && i % 2 == 0 ==>
              ShowsProse(r[i].segments, SplitOn(text, Fence)[i])
  {
    var parts := SplitOn(text, Fence);
    PartsShow(parts);
    seq(|parts|, i requires 0 <= i < |parts| =>
      if i % 2 == 1 then Code(CodeOf(parts[i])) else ProseOf(parts[i]))
  }

  lemma PartsShow(parts: seq<string>)
    ensures forall i :: 0 <= i < |parts| ==>
              CodeOf(parts[i]) == AfterFirstNewline(parts[i])
              && ShowsProse(ProseOf(parts[i]).segments, parts[i])
  {
    forall i | 0 <= i < |parts|
      ensures CodeOf(parts[i]) == AfterFirstNewline(parts[i])
      ensures ShowsProse(ProseOf(parts[i]).segments, parts[i])
    {
      CodeIsAfterFirstNewline(parts[i]);
      ProseOfShows(parts[i]);
    }
  }

  /** Each segment is shown as its piece, up to the bare-star exception. */
  lemma SegmentShowsPiece(piece: string)
    ensures Shows(RenderSegment(piece), piece)
  {
    if StartsWith(piece, "**") && EndsWith(piece, "**") {
      if |piece| >= 4 {
        assert piece == piece[..2] + piece[2..|piece| - 2] + piece[|piece| - 2..];
      } else if |piece| == 3 {
        assert piece[0] == piece[..2][0] && piece[2] == piece[1..][1];
        assert piece == "***";
      } else {
        assert piece == piece[..2];
      }
    }
  }

  lemma ProseOfShows(part: string)
    ensures ShowsProse(ProseOf(part).segments, part)
  {
    var pieces := BoldSplit(part);
    var runs := ProseOf(part).segments;
    forall j | 0 <= j < |runs| ensures Shows(runs[j], pieces[j]) && (j % 2 == 1 ==> runs[j].Strong?) {
      SegmentShowsPiece(pieces[j]);
      if j % 2 == 1 {
        CapturedSegmentsAreBold(part, j);
      }
    }
  }

  /** The markup of a sequence of runs, written out. */
  function Shown(runs: seq<Inline>): string {
    if runs == [] then "" else Markup(runs[0]) + Shown(runs[1..])
  }

  predicate NoBareStars(pieces: seq<string>) {
    forall j :: 0 <= j < |pieces| ==> pieces[j] != "**" && pieces[j] != "***"
  }

  lemma {:induction false} MarkupJoins(runs: seq<Inline>, pieces: seq<string>)
    requires |runs| == |pieces|
    requires forall j :: 0 <= j < |runs| ==> Markup(runs[j]) == pieces[j]
    ensures Shown(runs) == Join(pieces, "")
    decreases |runs|
  {
    if |runs| == 1 {
      assert Shown(runs[1..]) == "";
    } else if |runs| > 1 {
      MarkupJoins(runs[1..], pieces[1..]);
    }
  }

  /** Unless a piece is a bare `**` or `***`, the runs' markup written back is the part itself. */
  lemma ProseJoinsBack(part: string)
    requires NoBareStars(BoldSplit(part))
    ensures Shown(ProseOf(part).segments) == part
  {
    ProseOfShows(part);
    MarkupJoins(ProseOf(part).segments, BoldSplit(part));
  }

  /** The exception: a message that is just `**` shows as one empty bold run. */
  lemma BareStarsShowEmptyBold()
    ensures Render("**") == [Prose([Strong("")])]
  {
    var s := "**";
    assert '`' !in s;
    MissingCharRulesOut(s, Fence, '`');
    SplitWithoutSeparator(s, Fence);
    assert SplitsAs(s, 0, [s]);
    BoldSplitIsTheSplit(s, [s]);
    assert RenderSegment(s) == Strong("");
    assert ProseOf(s) == Prose([Strong("")]);
  }

  // ---------------------------------------------------------------------------
  // What the split promises
  // ---------------------------------------------------------------------------

  /** Every odd-numbered piece of the scan from `p`, `q` is a bold match of the text. */
  lemma SplitFromCaptures(s: string, p: nat, q: nat, k: nat)
    requires p <= q <= |s| && NoMatchIn(s, p, q)
    requires k < |SplitFrom(s, p, q)| && k % 2 == 1
    ensures var seg := SplitFrom(s, p, q)[k];
            StartsWith(seg, "**") && EndsWith(seg, "**") && |seg| >= 4
            && forall m :: 2 <= m < |seg| - 2 ==> !IsLineTerminator(seg[m])
  {
    CapturedShape(s, p, SplitFrom(s, p, q), k);
  }

  /** The text of one bold match opens and closes with `**` and has no line terminator between. */
  lemma MatchedText(s: string, q: nat, e: nat)
    requires BoldMatch(s, q, e)
    ensures var seg := s[q..e];
            StartsWith(seg, "**") && EndsWith(seg, "**") && |seg| >= 4
            && forall m :: 2 <= m < |seg| - 2 ==> !IsLineTerminator(seg[m])
  {
    var seg := s[q..e];
    assert seg[..2] == s[q..q + 2];
    assert seg[|seg| - 2..] == s[e - 2..e];
    forall m | 2 <= m < |seg| - 2 ensures !IsLineTerminator(seg[m]) {
      assert seg[m] == s[q + m];
    }
  }

  /** The captured segments render bold, their text free of line breaks. */
  lemma CapturedSegmentsAreBold(s: string, k: nat)
    requires k < |BoldSplit(s)| && k % 2 == 1
    ensures RenderSegment(BoldSplit(s)[k]).Strong?
    ensures var inner := RenderSegment(BoldSplit(s)[k]).text;
            BoldSplit(s)[k] == "**" + inner + "**"
            && forall m :: 0 <= m < |inner| ==> !IsLineTerminator(inner[m])
  {
    SplitFromCaptures(s, 0, 0, k);
    var seg := BoldSplit(s)[k];
    var inner := Inner(seg);
    assert seg == seg[..2] + inner + seg[|seg| - 2..];
    forall m | 0 <= m < |inner| ensures !IsLineTerminator(inner[m]) {
      assert inner[m] == seg[m + 2];
    }
  }

  /** Text with no pair of stars from `q` on is one plain segment. */
  lemma {:induction false} NoStarsOnePiece(s: string, p: nat, q: nat)
    requires p <= q <= |s| && NoMatchIn(s, p, q)
    requires forall j :: q <= j ==> !StarPairAt(s, j)
    ensures SplitFrom(s, p, q) == [s[p..]]
    decreases |s| - q
  {
    if q < |s| {
      NoStarsOnePiece(s, p, q + 1);
    }
  }

  /** A phrase with no stars, backticks or line breaks. */
  predicate PlainPhrase(phrase: string) {
    forall m :: 0 <= m < |phrase| ==>
      !IsLineTerminator(phrase[m]) && phrase[m] != '*' && phrase[m] != '`'
  }

  /** A single bold phrase is captured whole, between two empty pieces. */
  lemma LoneBoldSplit(phrase: string)
    requires PlainPhrase(phrase)
    ensures BoldSplit("**" + phrase + "**") == ["", "**" + phrase + "**", ""]
  {
    var s := "**" + phrase + "**";
    forall m | 2 <= m < |s| - 2 ensures !IsLineTerminator(s[m]) && !StarPairAt(s, m) {
      assert s[m] == phrase[m - 2];
    }
    assert StarPairAt(s, 0) && StarPairAt(s, |s| - 2);
    assert BoldMatch(s, 0, |s|);
    var e := MatchAt(s, 0).value;
    assert SplitFrom(s, 0, 0) == [s[0..0], s[0..e]] + SplitFrom(s, e, e);
    assert s[0..0] == "" && s[0..e] == s;
  }

  lemma BoldPhraseHasNoFence(phrase: string)
    requires PlainPhrase(phrase)
    ensures !Contains("**" + phrase + "**", Fence)
  {
    var s := "**" + phrase + "**";
    assert '`' !in s by {
      forall m | 0 <= m < |s| ensures s[m] != '`' {
        if 2 <= m < |s| - 2 { assert s[m] == phrase[m - 2]; }
      }
    }
    MissingCharRulesOut(s, Fence, '`');
  }

  lemma BoldPhraseRendersStrong(phrase: string)
    ensures RenderSegment("**" + phrase + "**") == Strong(phrase)
  {
    var s := "**" + phrase + "**";
    assert s[..2] == "**" && s[|s| - 2..] == "**";
    assert Inner(s) == phrase;
  }

  /** A message that is one bold phrase shows as that phrase in bold and nothing else. */
  lemma LoneBoldPhrase(phrase: string)
    requires PlainPhrase(phrase)
    ensures Render("**" + phrase + "**") == [Prose([Span(""), Strong(phrase), Span("")])]
  {
    var s := "**" + phrase + "**";
    LoneBoldSplit(phrase);
    BoldPhraseHasNoFence(phrase);
    SplitWithoutSeparator(s, Fence);
    BoldPhraseRendersStrong(phrase);
    assert RenderSegment("") == Span("");
    assert ProseOf(s) == Prose([Span(""), Strong(phrase), Span("")]);
  }

  /** A message with no backticks and no pair of stars is shown verbatim as one plain segment. */
  lemma PlainMessageVerbatim(text: string)
    requires '`' !in text
    requires forall j :: !StarPairAt(text, j)
    ensures Render(text) == [Prose([Span(text)])]
  {
    MissingCharRulesOut(text, Fence, '`');
    SplitWithoutSeparator(text, Fence);
    NoStarsOnePiece(text, 0, 0);
    assert text[0..] == text;
    assert RenderSegment(text) == Span(text) by {
      if |text| >= 2 && StartsWith(text, "**") {
        assert StarPairAt(text, 0);
      }
    }
    assert ProseOf(text) == Prose([Span(text)]);
  }

  /** A bold phrase followed by text with no stars: the phrase is captured, the rest is one plain piece. */
  lemma BoldThenPlainSplit(phrase: string, rest: string)
    requires PlainPhrase(phrase) && '*' !in rest
    ensures BoldSplit("**" + phrase + "**" + rest) == ["", "**" + phrase + "**", rest]
  {
    var head := "**" + phrase + "**";
    var s := head + rest;
    var e := |head|;
    forall m | 2 <= m < e - 2 ensures !IsLineTerminator(s[m]) && !StarPairAt(s, m) {
      assert s[m] == phrase[m - 2];
    }
    assert StarPairAt(s, 0) && StarPairAt(s, e - 2);
    assert BoldMatch(s, 0, e);
    assert MatchAt(s, 0) == Some(e);
    assert forall j :: e <= j ==> !StarPairAt(s, j);
    NoStarsOnePiece(s, e, e);
    assert SplitFrom(s, 0, 0) == [s[0..0], s[0..e]] + SplitFrom(s, e, e);
    assert s[0..0] == "" && s[0..e] == head && s[e..] == rest;
  }

  lemma BoldThenPlainHasNoFence(phrase: string, rest: string)
    requires PlainPhrase(phrase) && '`' !in rest
    ensures !Contains("**" + phrase + "**" + rest, Fence)
  {
    var head := "**" + phrase + "**";
    var s := head + rest;
    assert '`' !in s by {
      forall m | 0 <= m < |s| ensures s[m] != '`' {
        if 2 <= m < |phrase| + 2 { assert s[m] == phrase[m - 2]; }
        else if m >= |head| { assert s[m] == rest[m - |head|]; }
      }
    }
    MissingCharRulesOut(s, Fence, '`');
  }

  /** Text without a fence is a single prose block. */
  lemma NoFenceOneBlock(s: string)
    requires !Contains(s, Fence)
    ensures Render(s) == [ProseOf(s)]
  {
    SplitWithoutSeparator(s, Fence);
  }

  lemma ProseOfThree(s: string, a: string, b: string, c: string)
    requires BoldSplit(s) == [a, b, c]
    ensures ProseOf(s) == Prose([RenderSegment(a), RenderSegment(b), RenderSegment(c)])
  {
  }

  /**
    A project detail from the surprise pool shows as one prose block: its
    title in bold, then the rest of the text (the blank line and the content,
    with any bold phrases of its own) split and shown as any prose is.
   */
  lemma DetailRendersBoldTitle(title: string, content: string)
    requires PlainPhrase(title) && !Contains(content, Fence)
    ensures Render(Surprises.DetailText(Surprises.Detail(title, content)))
            == [Prose([Span(""), Strong(title)] + ProseOf("\n\n" + content).segments)]
  {
    var head := "**" + title + "**";
    var rest := "\n\n" + content;
    var s := head + rest;
    assert Surprises.DetailText(Surprises.Detail(title, content)) == s;
    DetailHasNoFence(title, content);
    NoFenceOneBlock(s);
    ProseAfterPhrase(title, rest);
  }

  lemma DetailHasNoFence(title: string, content: string)
    requires PlainPhrase(title) && !Contains(content, Fence)
    ensures !Contains("**" + title + "**" + ("\n\n" + content), Fence)
  {
    PhraseHasNoTick(title);
    TickFreeHead("**" + title + "**\n\n", content);
    assert "**" + title + "**" + ("\n\n" + content) == "**" + title + "**\n\n" + content;
  }

  /** A bold phrase at the front shows as an empty run and the phrase in bold, then the rest as it shows alone. */
  lemma ProseAfterPhrase(phrase: string, rest: string)
    requires PlainPhrase(phrase)
    ensures ProseOf("**" + phrase + "**" + rest)
            == Prose([Span(""), Strong(phrase)] + ProseOf(rest).segments)
  {
    var head := "**" + phrase + "**";
    BoldSplitAfterPhrase(phrase, rest);
    BoldPhraseRendersStrong(phrase);
    RunsAfter(head, BoldSplit(rest));
  }

  lemma RunsAfter(x: string, pieces: seq<string>)
    ensures Runs(["", x] + pieces) == [Span(""), RenderSegment(x)] + Runs(pieces)
  {
    assert RenderSegment("") == Span("");
  }

  lemma PhraseHasNoTick(phrase: string)
    requires PlainPhrase(phrase)
    ensures '`' !in "**" + phrase + "**\n\n"
  {
    var s := "**" + phrase + "**\n\n";
    forall m | 0 <= m < |s| ensures s[m] != '`' {
      if 2 <= m < |phrase| + 2 { assert s[m] == phrase[m - 2]; }
    }
  }

  /** A bold phrase at the front is captured, and the rest splits on its own. */
  lemma BoldSplitAfterPhrase(phrase: string, rest: string)
    requires PlainPhrase(phrase)
    ensures BoldSplit("**" + phrase + "**" + rest) == ["", "**" + phrase + "**"] + BoldSplit(rest)
  {
    var head := "**" + phrase + "**";
    var s := head + rest;
    var e := |head|;
    forall m | 2 <= m < e - 2 ensures !IsLineTerminator(s[m]) && !StarPairAt(s, m) {
      assert s[m] == phrase[m - 2];
    }
    assert StarPairAt(s, 0) && StarPairAt(s, e - 2);
    assert BoldMatch(s, 0, e);
    assert MatchAt(s, 0) == Some(e);
    assert SplitFrom(s, 0, 0) == [s[0..0], s[0..e]] + SplitFrom(s, e, e);
    assert s[0..0] == "" && s[0..e] == head;
    RestSplitsOnItsOwn(head, rest);
  }

  lemma RestSplitsOnItsOwn(head: string, rest: string)
    ensures SplitFrom(head + rest, |head|, |head|) == BoldSplit(rest)
  {
    var r := BoldSplit(rest);
    ShiftSplitsAs(head, rest, 0, r);
    SplitsAsUnique(head + rest, |head|, SplitFrom(head + rest, |head|, |head|), r);
  }

  /** A match in `b` is a match in `a + b`, shifted by `|a|`, and the other way round. */
  lemma MatchShift(a: string, b: string, q: int, e: int)
    requires 0 <= q
    ensures BoldMatch(a + b, |a| + q, |a| + e) <==> BoldMatch(b, q, e)
  {
    var s := a + b;
    if q + 4 <= e <= |b| {
      forall j | q <= j < e
        ensures s[|a| + j] == b[j]
        ensures StarPairAt(s, |a| + j) <==> StarPairAt(b, j)
      {}
      if BoldMatch(b, q, e) {
        forall j | |a| + q + 2 <= j < |a| + e - 2 ensures !IsLineTerminator(s[j]) && !StarPairAt(s, j) {
          assert s[j] == b[j - |a|] && (StarPairAt(s, j) <==> StarPairAt(b, j - |a|));
        }
      }
      if BoldMatch(s, |a| + q, |a| + e) {
        forall j | q + 2 <= j < e - 2 ensures !IsLineTerminator(b[j]) && !StarPairAt(b, j) {
          assert s[|a| + j] == b[j];
        }
      }
    }
  }

  lemma NoMatchShift(a: string, b: string, x: nat, y: int)
    requires NoMatchIn(b, x, y)
    ensures NoMatchIn(a + b, |a| + x, |a| + y)
  {
    forall j, e | |a| + x <= j < |a| + y ensures !BoldMatch(a + b, j, e) {
      MatchShift(a, b, j - |a|, e - |a|);
    }
  }

  /** A split of `b` from `p` is, shifted, a split of `a + b` from `|a| + p`. */
  lemma {:induction false} ShiftSplitsAs(a: string, b: string, p: nat, r: seq<string>)
    requires SplitsAs(b, p, r)
    ensures SplitsAs(a + b, |a| + p, r)
    decreases |r|
  {
    var s := a + b;
    if |r| == 1 {
      assert s[|a| + p..] == b[p..];
      NoMatchShift(a, b, p, |b|);
    } else {
      var q := p + |r[0]|;
      var e := q + |r[1]|;
      assert s[|a| + p..|a| + q] == b[p..q];
      assert s[|a| + q..|a| + e] == b[q..e];
      NoMatchShift(a, b, p, q);
      MatchShift(a, b, q, e);
      ShiftSplitsAs(a, b, e, r[2..]);
    }
  }

  /** A text whose head holds no backtick has a fence only where its tail has one. */
  lemma TickFreeHead(a: string, b: string)
    requires '`' !in a && !Contains(b, Fence)
    ensures !Contains(a + b, Fence)
  {
    ContainsIff(a + b, Fence);
    ContainsIff(b, Fence);
    forall i ensures !OccursAt(a + b, Fence, i) {
      FenceInTail(a, b, i);
    }
  }

  lemma FenceInTail(a: string, b: string, i: int)
    requires '`' !in a
    ensures OccursAt(a + b, Fence, i) ==> i >= |a| && OccursAt(b, Fence, i - |a|)
  {
    var s := a + b;
    if OccursAt(s, Fence, i) {
      assert s[i] == s[i..i + 3][0] == '`';
      assert i >= |a|;
      assert s[i..i + 3] == b[i - |a|..i - |a| + 3];
    }
  }

  lemma SignOffHasNoFence()
    ensures !Contains(Surprises.SignOff, Fence)
  {
    var a := "\n\nNathan writes clean, ";
    var b := "production-ready code!";
    assert Surprises.SignOff == a + b;
    assert '`' !in a && '`' !in b;
    MissingCharRulesOut(Surprises.SignOff, Fence, '`');
  }

  /** The snippet text is three pieces joined by two fences. */
  lemma SnippetTextPieces(sn: Surprises.Snippet)
    ensures Surprises.SnippetText(sn)
            == ("**" + sn.title + "**\n") + Fence + (sn.language + "\n" + sn.code + "\n") + Fence + Surprises.SignOff
  {
    assert "**\n```" == "**\n" + Fence;
    assert "\n```" == "\n" + Fence;
  }

  /** Text with exactly two fences splits into the three parts around them. */
  lemma TwoFences(a: string, b: string, c: string)
    requires '`' !in a && '`' !in b && !Contains(c, Fence)
    ensures SplitOn(a + Fence + b + Fence + c, Fence) == [a, b, c]
  {
    SplitAfter(b, Fence, c);
    SplitWithoutSeparator(c, Fence);
    assert SplitOn(b + Fence + c, Fence) == [b, c];
    assert a + Fence + b + Fence + c == a + Fence + (b + Fence + c);
    SplitAfter(a, Fence, b + Fence + c);
  }

  /** The middle of three fenced parts renders as code. */
  lemma MiddleIsCode(text: string, a: string, b: string, c: string)
    requires SplitOn(text, Fence) == [a, b, c]
    ensures |Render(text)| == 3 && Render(text)[1] == Code(CodeOf(b))
  {
  }

  /**
    A code snippet from the surprise pool shows as three blocks, the middle one
    its code with a trailing newline, when its title, language and code hold no
    backticks and its language no newline.
   */
  lemma SnippetRendersCode(sn: Surprises.Snippet)
    requires '`' !in sn.title && '`' !in sn.language && '`' !in sn.code
    requires '\n' !in sn.language
    ensures |Render(Surprises.SnippetText(sn))| == 3
    ensures Render(Surprises.SnippetText(sn))[1] == Code(sn.code + "\n")
  {
    var head := "**" + sn.title + "**\n";
    var body := sn.language + "\n" + sn.code + "\n";
    SnippetTextPieces(sn);
    SnippetPartsHaveNoTicks(sn);
    SignOffHasNoFence();
    TwoFences(head, body, Surprises.SignOff);
    MiddleIsCode(Surprises.SnippetText(sn), head, body, Surprises.SignOff);
    CodeOfBody(sn.language, sn.code);
  }

  lemma SnippetPartsHaveNoTicks(sn: Surprises.Snippet)
    requires '`' !in sn.title && '`' !in sn.language && '`' !in sn.code
    ensures '`' !in "**" + sn.title + "**\n"
    ensures '`' !in sn.language + "\n" + sn.code + "\n"
  {
  }

  lemma CodeOfBody(language: string, code: string)
    requires '\n' !in language
    ensures CodeOf(language + "\n" + code + "\n") == code + "\n"
  {
    var body := language + "\n" + code + "\n";
    assert body == language + Newline + (code + "\n");
    IndexOfAfter(language, Newline, code + "\n");
    CodeIsAfterFirstNewline(body);
    assert body[|language| + 1..] == code + "\n";
  }
}
