# Portfolio site core, modelled in Dafny

This project models the logic at the heart of a personal portfolio website written in
TypeScript and React. It proves properties of that logic. The parts modelled are:

- **Intent matcher** (`matchIntent`, `getQuickReplies`): the rule-based chat assistant.
  It lower-cases and trims the input. A short input holding a greeting word gets a canned
  greeting. Otherwise the first intent in the table with a keyword inside the input answers,
  provided its knowledge-base entry is usable. Otherwise the default entry answers.
- **Surprise generator** (`getRandomSurprise`): a 40/30/30 split between fun facts, project
  details and code snippets, each formatted as chat text.
- **Chat panel**: the opening greeting, the typing delay, sending a message, the follow-up
  chips, and the renderer. The renderer splits a message on code fences, then splits the
  prose on `**bold**` runs the way the regular expression `(\*\*.*?\*\*)` does.
- **Time-of-day theme**: the theme for an hour, applying it to the page's class list, and
  the theme descriptions.
- **Career timeline**: the XP total, levels, unlocking nodes, the completion badge and the
  progress bar.
- **"Now" dashboard**: `formatTimeAgo`.
- **Header logo**: the hidden triple-click counter.
- **Hero banner**: the typewriter.
- **Skills data**: `getAllSkills`.

Modules follow the source files:

| module | models |
|---|---|
| `Strings`, `Options` | the JavaScript string operations used: ASCII `toLowerCase`, whitespace `trim`, `includes`, `split` and `join` on a string, UTF-16 `length`, decimal rendering |
| `Intent` | `src/lib/intent.ts` |
| `Surprises` | `src/data/surprises.ts` |
| `ChatPanel` | the state and handlers of `src/components/ChatPanel.tsx` |
| `MessageRender` | the message rendering of `src/components/ChatPanel.tsx` |
| `TimeTheme` | `src/lib/timeTheme.ts` |
| `Timeline` | `src/data/timeline.ts` and `src/components/Timeline.tsx` |
| `TimeAgo` | `formatTimeAgo` in `src/components/NowDashboard.tsx` |
| `LogoClicks` | the logo click handler in `src/components/Header.tsx` |
| `Typewriter` | the typewriter effect in `src/components/Hero.tsx` |
| `Skills` | `src/data/skills.ts` |

The clock, `Math.random()` and the knowledge base `kb.json` are parameters:

- An hour or a millisecond difference stands in for the clock.
- A real number in [0, 1) stands in for each random draw.
- A `Kb` record holds the greetings, the entries by intent name and the default entry.

React state is a record. Each handler is a function from state to state. A pending
`setTimeout` is an entry in a list of timers, and the `Fire` step runs any of them. Typing,
sending and clicking a chip are possible only while the panel is open, since the input and
the chips render only then; opening, closing and timers can happen at any time.

Some consequences of the code as written, each proved below:

- The standard follow-up chips ("Your projects", "Your experience", "Your skills") and the
  quick reply "Internships" all get a greeting back. Each contains a greeting keyword as a
  substring: "yo" in "your", and "hi" in "internships".
- Given a usable `internships` entry in kb.json, the word "experience" is answered by the
  `internships` intent, which is listed earlier. The `experience` intent can then only fire
  through "career".
- Given a usable `ai` entry in kb.json, "email" is answered by the `ai` intent ("ai" occurs
  in "email"), never by `contact`.
- Reopening the panel before the 400 ms greeting timer fires queues a second greeting.
  The source has no guard against this.
- A prose piece that is a bare `**` or `***`, such as a message that is just `**`, shows as
  an empty bold run: its stars are lost. Every other prose part reads back from its runs.

## Model

| member | source | states |
|---|---|---|
| Intent.SelectFrom | src/lib/intent.ts:37-61 | the scan returns the first intent, in table order, whose keyword occurs in the input and whose entry is usable; no earlier one qualifies; None means none qualifies |
| Intent.MatchIntent | src/lib/intent.ts:9-69 | a normalised input that is a short greeting gets one of kb.json's greeting lines with the standard follow-ups; otherwise, when intent i fires and no earlier intent does, the reply is intent i's entry resolved; otherwise, when no intent fires, the reply is the default entry |
| Intent.SelectIsFirstFiring | src/lib/intent.ts:37-61 | the scan selects intent i whenever i fires and no earlier intent does, and selects nothing when no intent fires |
| Intent.Resolve | src/lib/intent.ts:42-59 | an object entry keeps its follow-ups and its response, except that `{{surprise}}` is replaced by the surprise text of this call; a bare string entry gets the four standard follow-ups |
| Intent.SurpriseEntryShowsSurprise | src/lib/intent.ts:45-53 | with the surprise text drawn by the generator, the template entry answers with that non-empty surprise and keeps its follow-ups |
| Intent.GreetingReply | src/lib/intent.ts:14-18 | the greeting reply is one of the knowledge base's greeting lines, with the standard follow-ups |
| Intent.NormalizeIdempotent | src/lib/intent.ts:10 | lower-casing and trimming a second time changes nothing |
| Intent.MatchDependsOnlyOnNormalForm | src/lib/intent.ts:10 | the reply depends only on the lower-cased, trimmed input |
| Intent.NormalizeExample | src/lib/intent.ts:10 | "  PROJECTS " normalises to "projects" |
| Intent.GreetingIgnoresTable | src/lib/intent.ts:13-19 | a greeting input gets the same reply whatever the intent table and default entry hold |
| Intent.LongInputSkipsGreeting | src/lib/intent.ts:14 | an input of 20 or more UTF-16 units never takes the greeting branch |
| Intent.ShortGreetingWordIsGreeted | src/lib/intent.ts:13-18 | an input under 20 units that contains a greeting keyword is answered with a greeting line and the standard follow-ups |
| Intent.ProjectsChipGreets | src/lib/intent.ts:13-18 | the chip "Your projects" is answered with a greeting, because "your" contains "yo" |
| Intent.ExperienceChipGreets | src/lib/intent.ts:13-18 | the chip "Your experience" is answered with a greeting |
| Intent.SkillsChipGreets | src/lib/intent.ts:13-18 | the chip "Your skills" is answered with a greeting |
| Intent.InternshipsQuickReplyGreets | src/lib/intent.ts:71-73 | the quick reply "Internships" is answered with a greeting, because it contains "hi" |
| Intent.GreetedThrough | src/lib/intent.ts:10-18 | any input whose lower-cased form has no outer whitespace, is under 20 units and contains a greeting keyword gets the greeting reply |
| Intent.NormalFormOf | src/lib/intent.ts:10 | an input whose lower-cased form has no outer whitespace normalises to that form |
| Intent.GreetingWordInside | src/lib/intent.ts:14 | a text with a greeting keyword inside mentions a greeting keyword |
| Intent.FirstMatchWins | src/lib/intent.ts:38-40 | changing the knowledge base only beyond the chosen intent leaves the choice unchanged |
| Intent.NoKeywordIsEmpty | src/lib/intent.ts:13-35 | no keyword of any intent, nor any greeting keyword, is empty |
| Intent.EmptyMentionsNothing | src/lib/intent.ts:39 | an empty input contains none of a list of non-empty keywords |
| Intent.BlankNormalizesToEmpty | src/lib/intent.ts:10 | an all-whitespace input normalises to the empty string |
| Intent.NothingFiresOnEmpty | src/lib/intent.ts:38-61 | no intent fires on the empty input |
| Intent.BlankInputGetsDefault | src/lib/intent.ts:63-68 | an all-whitespace input gets the default entry's reply |
| Intent.NoneMentioned | src/lib/intent.ts:39 | if each keyword has a character the input lacks, the input mentions none of them |
| Intent.InternshipsSilent | src/lib/intent.ts:24 | an input that does not fire the internships keywords contains none of "experience", "work" or "job" |
| Intent.OnlyCareerLeft | src/lib/intent.ts:25 | an experience-keyword input without "experience", "work history" or "jobs" contains "career" |
| Intent.ExperienceOnlyThroughCareer | src/lib/intent.ts:24-25 | when the internships entry is usable, the experience intent is chosen only for inputs with "career" and without its other keywords |
| Intent.EmailNeverReachesContact | src/lib/intent.ts:26-27 | when the ai entry is usable, an input containing "email" is answered by the ai intent or an earlier one, never by contact |
| Intent.NoGreetingLetters | src/lib/intent.ts:13-14 | a text without the letters h, g, s and y contains no greeting keyword |
| Intent.EmailIsNormal | src/lib/intent.ts:10-14 | "email" is its own normal form and is no greeting |
| Intent.EmailMissesFirstIntents | src/lib/intent.ts:23-25 | "email" fires none of the projects, internships or experience intents |
| Intent.EmailAnsweredByAi | src/lib/intent.ts:26-53 | given a usable ai entry in kb.json, the input "email" gets that entry's reply |
| Intent.ExperienceIsNormal | src/lib/intent.ts:10-14 | "experience" is its own normal form and is no greeting |
| Intent.ExperienceAnsweredByInternships | src/lib/intent.ts:24-25 | given a usable internships entry in kb.json, the input "experience" gets that entry's reply |
| Intent.QuickRepliesShape | src/lib/intent.ts:71-73 | there are five quick replies, the second being "Internships" |
| Surprises.KindOfBands | src/data/surprises.ts:90-104 | the draw picks fun fact on [0, 0.4), project detail on [0.4, 0.7) and code snippet on [0.7, 1); the three weights sum to one |
| Surprises.KindOf | src/data/surprises.ts:90-97 | a draw in [0, 1) lands in the half-open band of the kind it selects, each band as wide as that kind's weight |
| Surprises.PickIndex | src/data/surprises.ts:94 | `Math.floor(u * n)` is an index below n, the one whose unit interval holds u·n |
| Surprises.ScaleBelow | src/data/surprises.ts:94 | helper, a general arithmetic fact behind the pick index: scaling a draw in [0, 1) by a positive n stays in [0, n) |
| Surprises.Surprise | src/data/surprises.ts:89-104 | the result is a fun fact, a formatted project detail or a formatted code snippet, according to the band of the first draw |
| Surprises.PoolSizes | src/data/surprises.ts:1-87 | the pools hold ten fun facts, five project details and three code snippets |
| Surprises.SurpriseNonEmpty | src/data/surprises.ts:89-104 | a surprise is never empty |
| Surprises.PickIndexHits | src/data/surprises.ts:94 | the draw i/n picks index i |
| Surprises.EveryEntryReachable | src/data/surprises.ts:1-104 | every entry of every pool is produced by some pair of draws |
| Surprises.SnippetText | src/data/surprises.ts:103 | a snippet's text opens with the bold title and the fenced language line, ends with the closing fence and sign-off, and holds the code verbatim between them |
| Surprises.DetailText | src/data/surprises.ts:99 | a detail's text opens with its title between `**` pairs and ends with a blank line and its content, with nothing else between |
| ChatPanel.TypingDelay | src/components/ChatPanel.tsx:67-69 | the delay lies in [600, 2500] ms; it is 600 + 8 per unit up to 237 units and capped at 2500 from 238 on |
| ChatPanel.TypingDelayMonotone | src/components/ChatPanel.tsx:67-69 | a longer message never waits less |
| ChatPanel.TimerDelay | src/components/ChatPanel.tsx:34-36 | the greeting waits 400 ms; a reply waits between 600 and 2500 ms |
| ChatPanel.OpeningGreetingsUncapped | src/components/ChatPanel.tsx:27-31 | every opening greeting is short enough to stay below the cap |
| ChatPanel.AddAssistantMessage | src/components/ChatPanel.tsx:62-83 | the typing indicator turns on and a reveal of the text with its follow-ups is queued; the message log, input and open state are untouched |
| ChatPanel.Send | src/components/ChatPanel.tsx:85-103 | blank text leaves the chat unchanged; otherwise the user message is appended, the input cleared, the typing indicator set, and the matched reply queued |
| ChatPanel.Open | src/components/ChatPanel.tsx:24-37 | opening a closed panel with an empty log queues one of the three greetings; otherwise no timer is queued |
| ChatPanel.Close | src/components/ChatPanel.tsx:17 | closing changes only the open flag |
| ChatPanel.Fire | src/components/ChatPanel.tsx:34-36 | the greeting timer starts a reveal with the quick replies as chips; a reveal timer appends the assistant message and ends typing |
| ChatPanel.Chips | src/components/ChatPanel.tsx:216 | chips show exactly when the log is non-empty, the last message has follow-ups and nobody is typing; they are the last message's follow-ups |
| ChatPanel.SendHidesChips | src/components/ChatPanel.tsx:63-102 | after a non-blank send no chips show |
| ChatPanel.RevealShowsItsChips | src/components/ChatPanel.tsx:71-81 | after a reveal fires, the chips are exactly the revealed reply's follow-ups |
| ChatPanel.Step | src/components/ChatPanel.tsx:72-96 | each event only appends to the message log, at most one message |
| ChatPanel.CountAppend | src/components/ChatPanel.tsx:72-96 | appending a message adds one to its sender's count |
| ChatPanel.SendKeepsReplyBalance | src/components/ChatPanel.tsx:85-103 | a send leaves balanced the user messages against the assistant messages plus pending reveals |
| ChatPanel.FireKeepsReplyBalance | src/components/ChatPanel.tsx:34-36 | a firing timer keeps the same balance |
| ChatPanel.StepKeepsReplyBalance | src/components/ChatPanel.tsx:24-107 | each event keeps the balance, except an opening that queues a greeting, which adds one |
| ChatPanel.RunAppends | src/components/ChatPanel.tsx:72-96 | over any run of events the earlier log is a prefix of the later |
| ChatPanel.RunKeepsReplyBalance | src/components/ChatPanel.tsx:24-107 | over any run the balance never drops, and without an opening it stays the same |
| ChatPanel.FromInitialEveryMessageAnswered | src/components/ChatPanel.tsx:85-103 | from the initial state, the user messages never outnumber the assistant messages plus pending timers |
| ChatPanel.RevealNewest | src/components/ChatPanel.tsx:62-83 | firing the reveal just queued appends exactly that assistant message and ends typing |
| ChatPanel.SendArmsReply | src/components/ChatPanel.tsx:85-103 | a non-blank send appends the user message, clears the input and queues the matched reply |
| ChatPanel.SendThenReveal | src/components/ChatPanel.tsx:85-103 | a non-blank send followed by its reveal leaves the user message then the matched reply at the end of the log, an empty input and no typing indicator |
| ChatPanel.OpeningGreeting | src/components/ChatPanel.tsx:24-37 | opening a fresh panel and firing both timers shows one assistant greeting from the three, with the quick replies as chips |
| ChatPanel.ReopenBeforeGreetingGreetsTwice | src/components/ChatPanel.tsx:24-37 | opening, closing and reopening before the greeting fires queues two greetings |
| ChatPanel.BlankIgnored | src/components/ChatPanel.tsx:86 | sending whitespace only changes nothing |
| MessageRender.CodeIsAfterFirstNewline | src/components/ChatPanel.tsx:191-192 | a code part shows everything after its first newline, or nothing when it has no newline |
| MessageRender.CloseFrom | src/components/ChatPanel.tsx:203 | the lazy scan finds the shortest bold match opening at a position, with no line terminator inside, or reports there is none |
| MessageRender.MatchAt | src/components/ChatPanel.tsx:203 | a match at a position is a bold match, and None means none exists there |
| MessageRender.SplitFrom | src/components/ChatPanel.tsx:203 | given that no match starts between the piece start and the scan position, the scan yields text pieces in which no match starts, each followed by the lazy match that ends it, captured whole (`SplitsAs`); the pieces concatenate back to the text scanned |
| MessageRender.BoldSplit | src/components/ChatPanel.tsx:203 | the split of a text concatenates back to it and is `SplitsAs` from the start: every bold match the left-to-right scan meets is captured at an odd position, and no match starts inside a text piece |
| MessageRender.SplitsAsUnique | src/components/ChatPanel.tsx:203 | at most one sequence of pieces splits a text that way |
| MessageRender.BoldSplitIsTheSplit | src/components/ChatPanel.tsx:203 | a sequence of pieces splits the text as `split` does if and only if it is `BoldSplit` of it |
| MessageRender.MatchEndUnique | src/components/ChatPanel.tsx:203 | the lazy pattern has at most one match starting at each position |
| MessageRender.PieceAt | src/components/ChatPanel.tsx:203 | piece k of a split is the text at its offset; an odd piece is a bold match there; no match starts inside an even piece |
| MessageRender.BoldSplitPieces | src/components/ChatPanel.tsx:203 | the same, piece by piece, for `BoldSplit` of a text |
| MessageRender.CapturedShape | src/components/ChatPanel.tsx:203 | an odd piece of any such split opens and closes with `**`, is at least four long and has no line terminator inside |
| MessageRender.RenderSegment | src/components/ChatPanel.tsx:204-207 | a segment is bold exactly when it starts and ends with `**`; bold text drops two characters each side; other text is shown verbatim |
| MessageRender.Render | src/components/ChatPanel.tsx:188-209 | one block per fence-separated part; odd parts and only they are code, showing the part after its first newline (or nothing); each even part is prose with one run per piece of its bold split, captured pieces bold, each run bold exactly when its piece opens and closes with `**`, and each run's markup its piece, except that a bare `**` or `***` shows as an empty bold run |
| MessageRender.PartsShow | src/components/ChatPanel.tsx:188-208 | every part's code is what follows its first newline, and every part's prose shows it run by run |
| MessageRender.SegmentShowsPiece | src/components/ChatPanel.tsx:204-207 | a segment's run is bold exactly when it opens and closes with `**`, and its markup is the segment, bare `**` and `***` aside |
| MessageRender.ProseOfShows | src/components/ChatPanel.tsx:203-208 | the prose runs of a part stand one for one for the pieces of its bold split, captured pieces bold |
| MessageRender.MarkupJoins | src/components/ChatPanel.tsx:203-208 | runs whose markup is each its piece write back to the concatenated pieces |
| MessageRender.ProseJoinsBack | src/components/ChatPanel.tsx:203-208 | when no piece is a bare `**` or `***`, the runs' markup written back is the prose part itself |
| MessageRender.BareStarsShowEmptyBold | src/components/ChatPanel.tsx:203-205 | the message `**` renders as one empty bold run, losing its stars |
| MessageRender.SplitFromCaptures | src/components/ChatPanel.tsx:203 | every odd piece starts and ends with `**`, is at least four long and has no line terminator inside |
| MessageRender.MatchedText | src/components/ChatPanel.tsx:203 | the text of one bold match opens and closes with `**`, is at least four long and has no line terminator inside |
| MessageRender.CapturedSegmentsAreBold | src/components/ChatPanel.tsx:203-205 | every captured piece renders bold, its text free of line terminators |
| MessageRender.NoStarsOnePiece | src/components/ChatPanel.tsx:203 | with no `**` ahead, the rest of the text is one piece |
| MessageRender.LoneBoldSplit | src/components/ChatPanel.tsx:203 | `**phrase**` splits into an empty piece, itself and an empty piece |
| MessageRender.BoldPhraseHasNoFence | src/components/ChatPanel.tsx:188 | `**phrase**` holds no fence |
| MessageRender.BoldPhraseRendersStrong | src/components/ChatPanel.tsx:204-205 | `**phrase**` renders as the phrase in bold |
| MessageRender.LoneBoldPhrase | src/components/ChatPanel.tsx:188-209 | a message that is just `**phrase**` renders as one prose block holding the phrase in bold between two empty spans |
| MessageRender.PlainMessageVerbatim | src/components/ChatPanel.tsx:188-209 | a message with no backtick and no `**` renders as itself, verbatim |
| MessageRender.BoldThenPlainSplit | src/components/ChatPanel.tsx:203 | a bold phrase followed by star-free text splits into empty, the phrase, the rest |
| MessageRender.BoldThenPlainHasNoFence | src/components/ChatPanel.tsx:188 | a bold phrase followed by backtick-free text holds no fence |
| MessageRender.NoFenceOneBlock | src/components/ChatPanel.tsx:188 | a message without a fence is one prose block |
| MessageRender.ProseOfThree | src/components/ChatPanel.tsx:203-208 | a three-piece split renders piece by piece |
| MessageRender.DetailRendersBoldTitle | src/data/surprises.ts:99 | a project-detail surprise whose title has no markup and whose content has no fence renders as one prose block: an empty run, the title in bold, then the blank line and the content shown as prose on their own, their inner bold phrases included |
| MessageRender.DetailHasNoFence | src/data/surprises.ts:99 | such a detail's text holds no fence |
| MessageRender.ProseAfterPhrase | src/components/ChatPanel.tsx:203-208 | a leading bold phrase shows as an empty run and the phrase in bold, followed by the runs of the rest shown alone |
| MessageRender.BoldSplitAfterPhrase | src/components/ChatPanel.tsx:203 | a leading bold phrase is captured, and the rest splits as it would alone |
| MessageRender.RestSplitsOnItsOwn | src/components/ChatPanel.tsx:203 | the scan resumed after a prefix splits the rest as the split of the rest alone |
| MessageRender.MatchShift | src/components/ChatPanel.tsx:203 | a bold match in a suffix is a bold match in the whole text at the shifted positions, and conversely |
| MessageRender.NoMatchShift | src/components/ChatPanel.tsx:203 | a match-free stretch of a suffix is match-free in the whole text |
| MessageRender.ShiftSplitsAs | src/components/ChatPanel.tsx:203 | a split of a suffix is, shifted, a split of the whole text from where the suffix starts |
| MessageRender.RunsAfter | src/components/ChatPanel.tsx:203-208 | the runs of an empty piece and a piece in front of more pieces |
| MessageRender.PhraseHasNoTick | src/data/surprises.ts:99 | a plain bold title and the blank line after it hold no backtick |
| MessageRender.TickFreeHead | src/components/ChatPanel.tsx:188 | a backtick-free head adds no fence to a fence-free tail |
| MessageRender.FenceInTail | src/components/ChatPanel.tsx:188 | a fence in a text with a backtick-free head lies in the tail |
| MessageRender.SignOffHasNoFence | src/data/surprises.ts:103 | the snippet sign-off holds no fence |
| MessageRender.SnippetTextPieces | src/data/surprises.ts:103 | a snippet's text is title, fence, language line with code, fence, sign-off |
| MessageRender.TwoFences | src/components/ChatPanel.tsx:188 | text with exactly two fences splits into the three parts around them |
| MessageRender.MiddleIsCode | src/components/ChatPanel.tsx:188-199 | the middle of three parts renders as a code block |
| MessageRender.SnippetRendersCode | src/components/ChatPanel.tsx:188-199 | a code-snippet surprise renders as three blocks, the middle one its code |
| MessageRender.SnippetPartsHaveNoTicks | src/data/surprises.ts:103 | the title part and the language-and-code part hold no backtick when the fields hold none |
| MessageRender.CodeOfBody | src/components/ChatPanel.tsx:191-192 | a code part whose language tag has no newline shows exactly the code after it |
| TimeTheme.ThemeAt | src/lib/timeTheme.ts:3-13 | morning exactly on hours 5–11, day exactly on 12–17, night otherwise |
| TimeTheme.ThemeBoundaries | src/lib/timeTheme.ts:6-11 | the themes of the boundary hours 0, 4, 5, 11, 12, 17, 18 and 23 |
| TimeTheme.HoursWithCounts | src/lib/timeTheme.ts:6-11 | the hours below n with each theme number as many as the overlap of [0, n) with that theme's band |
| TimeTheme.HoursPerTheme | src/lib/timeTheme.ts:6-11 | over a day: 7 morning hours, 6 day hours, 11 night hours |
| TimeTheme.ApplyTheme | src/lib/timeTheme.ts:15-24 | afterwards exactly one theme class is present, the hour's; every other class is untouched |
| TimeTheme.ApplyThemeIdempotent | src/lib/timeTheme.ts:15-24 | applying the same theme twice is applying it once |
| TimeTheme.LastApplicationWins | src/lib/timeTheme.ts:15-24 | applying two themes in turn is applying the second |
| TimeTheme.Description | src/lib/timeTheme.ts:26-34 | each description opens with its greeting |
| TimeTheme.DescriptionsDistinct | src/lib/timeTheme.ts:26-34 | different themes have different descriptions |
| Timeline.NodesWellFormed | src/data/timeline.ts:13-119 | seven nodes, distinct ids, every XP positive |
| Timeline.SumXP | src/data/timeline.ts:121-123 | the XP sum of a non-empty list of positive values is positive |
| Timeline.TotalXPValue | src/data/timeline.ts:121-123 | the total XP is 3200 |
| Timeline.Level | src/data/timeline.ts:125-127 | the level is the one whose 500-XP band holds the XP, and at least 1 for non-negative XP |
| Timeline.LevelUnique | src/data/timeline.ts:125-127 | the band determines the level |
| Timeline.LevelMonotone | src/data/timeline.ts:125-127 | more XP never gives a lower level |
| Timeline.LevelBoundaries | src/data/timeline.ts:125-127 | levels at 0, 499 and 500 XP, and level 7 at the full total |
| Timeline.Unlock | src/components/Timeline.tsx:14-19 | an unlocked node changes nothing; otherwise its id is added and its XP credited |
| Timeline.UnlockIdempotent | src/components/Timeline.tsx:14-19 | unlocking twice is unlocking once |
| Timeline.EarnedForInsert | src/components/Timeline.tsx:14-19 | adding a new node's id raises the earned XP by that node's XP |
| Timeline.EarnedForAbsent | src/components/Timeline.tsx:14-19 | adding an id of no node leaves the earned XP unchanged |
| Timeline.EarnedForBounded | src/components/Timeline.tsx:11-17 | earned XP lies between 0 and the total, and equals the total exactly when every id is unlocked |
| Timeline.IdsCons | src/data/timeline.ts:13-119 | the ids of a list are its head's id and its tail's ids |
| Timeline.StartConsistent | src/components/Timeline.tsx:7-8 | the initial state, nothing unlocked and 0 XP, agrees with the data |
| Timeline.EarnedForNone | src/components/Timeline.tsx:8 | nothing unlocked earns nothing |
| Timeline.UnlockKeepsConsistent | src/components/Timeline.tsx:14-19 | unlocking a node keeps the earned XP equal to the XP of the unlocked nodes |
| Timeline.UnlockAllKeepsConsistent | src/components/Timeline.tsx:14-19 | any sequence of unlocks keeps that agreement, and never lowers the XP or the level |
| Timeline.EarnedMatchesUnlocked | src/components/Timeline.tsx:14-19 | from the start, after any unlocks, the earned XP is the XP of exactly the nodes unlocked |
| Timeline.DistinctIdsCount | src/data/timeline.ts:13-119 | a list with distinct ids has as many ids as nodes |
| Timeline.SubsetSameSize | src/components/Timeline.tsx:23 | helper, a general set fact behind the badge condition: a subset as large as its superset equals it |
| Timeline.SubsetNoLarger | src/components/Timeline.tsx:23 | helper, a general set fact behind the badge condition: a subset is no larger than its superset |
| Timeline.Complete | src/components/Timeline.tsx:23 | for unlocked ids drawn from the timeline, the condition `size === length && size > 0` holds exactly when every node is unlocked |
| Timeline.FullCountIsAll | src/components/Timeline.tsx:23 | helper: a set of timeline ids as large as the node list is the whole id set |
| Timeline.CompleteIffAllUnlocked | src/components/Timeline.tsx:23 | the badge condition holds exactly when every node is unlocked |
| Timeline.CompleteIffAllEarned | src/components/Timeline.tsx:88 | the badge shows exactly when the earned XP reaches the total |
| Timeline.ProgressPercent | src/components/Timeline.tsx:67 | earned XP between 0 and the total gives a width in [0, 100] percent, and 100 percent exactly when all the XP is earned |
| Timeline.ProgressInRange | src/components/Timeline.tsx:67 | the progress bar's width lies in [0, 100] percent, and is full exactly when the badge shows |
| TimeAgo.FloorDiv | src/components/NowDashboard.tsx:44 | the floored quotient is the q with q·b ≤ a < (q+1)·b |
| TimeAgo.FloorDivNested | src/components/NowDashboard.tsx:44-46 | flooring by b then by c is flooring by b·c |
| TimeAgo.MulMonotone | src/components/NowDashboard.tsx:44-46 | helper, a general arithmetic fact behind the nested floors: multiplying by a positive number keeps order |
| TimeAgo.FloorDivUnique | src/components/NowDashboard.tsx:44-46 | the floored quotient is the unique such q |
| TimeAgo.DerivedUnits | src/components/NowDashboard.tsx:44-46 | the hour and day counts are the difference floored by an hour and a day |
| TimeAgo.Classify | src/components/NowDashboard.tsx:48-51 | days from a day on, hours from an hour to a day (1–23), minutes from a minute to an hour (1–59), "Just now" below a minute |
| TimeAgo.FormatTimeAgo | src/components/NowDashboard.tsx:40-52 | from a day on, the whole days as "N day(s) ago"; from an hour, the whole hours; from a minute, the whole minutes; below a minute, or in the future, "Just now" |
| TimeAgo.UnderAMinute | src/components/NowDashboard.tsx:51 | anything under a minute, a future time included, is "Just now" |
| TimeAgo.PhraseSingular | src/components/NowDashboard.tsx:48-50 | the unit is singular exactly for a count of one |
| TimeAgo.PhraseLeadsWithCount | src/components/NowDashboard.tsx:48-50 | the phrase opens with the count in decimal, which reads back as the count |
| TimeAgo.Examples | src/components/NowDashboard.tsx:40-52 | the outputs at the boundaries: 59 999 ms, a negative difference, 1 and 59 minutes, 1 and 23 hours, 1 and 2 days |
| LogoClicks.Click | src/components/Header.tsx:12-27 | the callback fires exactly on the third click, which resets the count; any other click counts up and arms the reset |
| LogoClicks.Expire | src/components/Header.tsx:22-24 | the reset timer sets the count back to zero |
| LogoClicks.UninterruptedClicks | src/components/Header.tsx:12-27 | n quick clicks fire the callback once per completed three, leaving the remainder counted |
| LogoClicks.FiresOnMultiplesOfThree | src/components/Header.tsx:18-20 | from rest, the k-th click fires exactly when k is a multiple of three |
| LogoClicks.PauseBreaksTheRun | src/components/Header.tsx:22-24 | two clicks, a pause, then one click fire nothing |
| LogoClicks.ExpiryRestartsCount | src/components/Header.tsx:22-24 | after an expiry, n clicks fire n div 3 times |
| Typewriter.Tick | src/components/Hero.tsx:10-17 | a running tick shows the next prefix of the tagline, or stops the interval once past the end; a stopped one does nothing; all keep the prefix invariant |
| Typewriter.TicksFromStart | src/components/Hero.tsx:9-13 | after n ticks, up to the whole tagline, the first n−1 characters show |
| Typewriter.TicksFromStartAcc | src/components/Hero.tsx:9-13 | the same for n ≥ 1 |
| Typewriter.TicksSplit | src/components/Hero.tsx:10-17 | a+b ticks are a ticks then b ticks |
| Typewriter.WholeTaglineShown | src/components/Hero.tsx:11-13 | after length+1 ticks the whole tagline shows and the interval still runs |
| Typewriter.ThenItStops | src/components/Hero.tsx:14-16 | the next tick stops the interval and later ticks change nothing |
| Typewriter.StoppedStaysStopped | src/components/Hero.tsx:14-16 | a stopped typewriter stays as it is |
| Skills.GetAllSkills | src/data/skills.ts:82-90 | the result is every category's skill names, categories in order, as many as there are skills |
| Skills.FlattenLength | src/data/skills.ts:82-90 | the list has one name per skill |
| Skills.FlattenPosition | src/data/skills.ts:84-88 | skill k of category c sits after all earlier categories' skills, at position k within its category |
| Skills.FlattenMembers | src/data/skills.ts:82-90 | a name is in the list exactly when some skill of some category has it |
| Skills.SkillsDataShape | src/data/skills.ts:8-80 | six categories, 37 skills, every level within 1–5 |
| Skills.AllSkillsOfData | src/data/skills.ts:82-90 | the shipped list has 37 names, from "Python" to "Data Analysis" |
| Strings.TrimEmptyIff | src/components/ChatPanel.tsx:86 | a trimmed text is empty exactly when it is all whitespace |
| Strings.TrimIdempotent | src/lib/intent.ts:10 | trimming twice is trimming once |
| Strings.ContainsIff | src/lib/intent.ts:14 | `includes` holds exactly when the keyword occurs at some position |
| Strings.ContainsTransitive | src/lib/intent.ts:23-27 | a text containing a word contains every substring of that word |
| Strings.MissingCharRulesOut | src/lib/intent.ts:39 | a text lacking a character of a keyword does not contain the keyword |
| Strings.IndexOf | src/components/ChatPanel.tsx:188 | the index returned is the first occurrence of the separator |
| Strings.SplitOn | src/components/ChatPanel.tsx:188 | splitting gives at least one piece, no piece holds the separator, joining the pieces back gives the text, and no occurrence starts inside a piece before the cut that ends it |
| Strings.SplitOnIsTheSplit | src/components/ChatPanel.tsx:188 | a list of pieces is what `split` returns exactly when it joins back to the text, its last piece lacks the separator, and every cut is the leftmost occurrence left |
| Strings.CutBeforeFirst | src/components/ChatPanel.tsx:188 | helper: cutting at the first occurrence leaves no occurrence starting before the cut |
| Strings.FirstCutAt | src/components/ChatPanel.tsx:188 | helper: when no occurrence starts before a cut, the cut is where `indexOf` finds the separator |
| Strings.FourTicksOnAFence | src/components/ChatPanel.tsx:188 | four backticks split on a fence give an empty part and then one backtick, so the cut falls at the leftmost position |
| Strings.PrefixBeforeFirst | src/components/ChatPanel.tsx:188 | the text before the first occurrence of a separator holds none |
| Strings.SplitAfter | src/components/ChatPanel.tsx:188 | a separator preceded by separator-free text splits off that text first |
| Strings.SplitWithoutSeparator | src/components/ChatPanel.tsx:188 | text without the separator splits into itself |
| Strings.ParseNatToString | src/components/NowDashboard.tsx:48-50 | a rendered count reads back as itself |
| Strings.NatToStringInjective | src/components/NowDashboard.tsx:48-50 | different counts render differently |

## Left out

- Intent.MatchIntent: the knowledge base must hold a greeting line (`ValidKb`). The source indexes `kbData.greetings` unchecked, so an empty list would give `undefined`.
- kb.json is not part of this model. Its greetings, entries and default entry are a parameter.
- Strings.Lower: lower-cases ASCII letters only. JavaScript's `toLowerCase` also folds the rest of Unicode; every keyword in the source is ASCII.
- `Math.random()` is a parameter: a real in [0, 1) per draw.
- Surprises.KindOf: compares the draw with 0.4 and 0.7 as exact reals, not as doubles. The literal 0.7 is the double 0.69999999999999995559…, so a draw of exactly that double fails `r < 0.7` and gets a code snippet in JavaScript, where the model gives a project detail; no draw is affected at 0.4.
- Intent.MatchIntent: the text `getRandomSurprise()` returns is a field of the draws rather than a call, so the matcher's proofs do not carry the surprise pools. `Intent.SurpriseEntryShowsSurprise` connects the two.
- The clock is a parameter: the hour for the theme and the millisecond difference for `formatTimeAgo`.
- `Date.now()` message ids are left out. They serve only as React list keys (`key={message.id}`), which is presentation.
- The model keeps timers in a list that may fire in any order. Real timer ordering is not modelled, and neither are the exact wall-clock times.
- ChatPanel: when replies overlap, the single `isTyping` flag is modelled as a plain flag that the first reveal clears, as in the source.
- ChatPanel.Open: React StrictMode's doubled effects are not modelled.
- Timeline.Unlock: each unlock reads the current set. The delayed `onUnlock` callback, which can see a stale `unlockedNodes` closure, is a scheduling matter and is not modelled.
- The theme controller's periodic re-application of the theme is a timer and is left out. `TimeTheme.ApplyTheme` models one application.
- now.mock.json and the dashboard's data loading are not part of this model. Only `formatTimeAgo` is.
- Timeline confetti: the reduced-motion media query and the 3-second timeout are presentation and are left out. The badge and confetti condition is modelled.
- TimeTheme.Description: states only that each description opens with its greeting and that they differ. The emoji tails are kept as the code points the source file holds: mis-decoded UTF-8 read through a single-byte code page.
- MessageRender.DetailRendersBoldTitle: the five shipped project details meet its conditions (plain titles, no backticks anywhere), but that is not proved here: the pool's long text literals make each such proof too large for the solver.
- Skills: the optional `icon` field is left out. Nothing here reads it.
- Rendering: JSX, styles, animation, scrolling, focus and the Escape key are presentation and are left out. The renderer is modelled as a list of blocks and inline pieces.
- The cursor effect, the GitHub, Spotify and network widgets, and the other components are not part of this model.
