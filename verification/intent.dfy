/**
  The chat assistant's rule-based responder (`matchIntent` and
  `getQuickReplies`). The input is lower-cased and trimmed; a short input that
  contains a greeting word gets a canned greeting; otherwise the first intent,
  in declaration order, with a keyword inside the input and a usable
  knowledge-base entry answers; otherwise the knowledge base's default entry
  answers.

  The knowledge base (kb.json) is a parameter: its greetings, its entries by
  intent name, and its `default` entry. The greeting's random draw is a
  parameter, and so is the text `getRandomSurprise` returns when the surprise
  entry answers; `SurpriseEntryShowsSurprise` ties that text to the generator.
 */
module Intent {
  import opened Options
  import opened Strings
  import Surprises

  /** A chat reply: its text and the follow-up chips offered with it (absent when the entry has none). */
  datatype Reply = Reply(response: string, followUp: Option<seq<string>>)

  /** The shapes a knowledge-base entry can have, as the matcher tells them apart. */
  datatype KbEntry =
    | Structured(response: string, followUp: Option<seq<string>>)  // an object with a `response` field
    | Plain(text: string)                                           // a bare string
    | Unusable                                                      // any other value

  /** kb.json: greeting lines, the entries under `intents`, and `intents.default`. */
  datatype Kb = Kb(greetings: seq<string>, intents: map<string, KbEntry>, fallback: Reply)

  /** The knowledge base has a greeting to pick from. */
  predicate ValidKb(kb: Kb) {
    |kb.greetings| > 0
  }

  /** The greeting's `Math.random()` result, and what `getRandomSurprise()` returns on this call. */
  datatype Draws = Draws(greeting: real, surprise: string)

  predicate ValidDraws(d: Draws) {
    Surprises.IsDraw(d.greeting)
  }

  const GreetingKeywords: seq<string> := ["hi", "hello", "hey", "greetings", "sup", "yo"]

  /** Follow-ups attached to greetings and to bare-string entries. */
  const StandardFollowUps: seq<string> := ["Your projects", "Your experience", "Your skills", "Contact info"]

  const SurpriseSentinel: string := "{{surprise}}"

  /** Inputs at or above this many UTF-16 units never take the greeting branch. */
  const GreetingLengthLimit: nat := 20

  /** Number of entries in the intent table. */
  const IntentCount: nat := 12

  /** The intent names, in declaration order. */
  function IntentName(i: nat): string
    requires i < IntentCount
  {
    match i
    case 0 => "projects"
    case 1 => "internships"
    case 2 => "experience"
    case 3 => "ai"
    case 4 => "contact"
    case 5 => "skills"
    case 6 => "surprise"
    case 7 => "about"
    case 8 => "education"
    case 9 => "attentioflow"
    case 10 => "fetch"
    case _ => "ufo"
  }

  /** The keywords of each intent, in declaration order. */
  function Keywords(i: nat): seq<string>
    requires i < IntentCount
  {
    match i
    case 0 => ["project", "projects", "built", "made", "created", "work on"]
    case 1 => ["internship", "intern", "job", "work", "experience", "company", "companies"]
    case 2 => ["experience", "work history", "jobs", "career"]
    case 3 => ["ai", "artificial intelligence", "machine learning", "ml", "neural", "pytorch"]
    case 4 => ["contact", "email", "reach", "linkedin", "github", "phone", "connect"]
    case 5 => ["skill", "skills", "tech", "technology", "technologies", "tools", "language", "languages"]
    case 6 => ["surprise", "fun", "cool", "easter egg", "hidden", "secret"]
    case 7 => ["about", "who are you", "tell me about", "yourself", "background"]
    case 8 => ["education", "school", "university", "college", "degree", "uw", "wisconsin", "madison"]
    case 9 => ["attentioflow", "attention flow", "cognitive"]
    case 10 => ["fetch", "prototype"]
    case _ => ["ufo", "alien", "sightings"]
  }

  const ProjectsIntent: nat := 0
  const InternshipsIntent: nat := 1
  const ExperienceIntent: nat := 2
  const AiIntent: nat := 3
  const ContactIntent: nat := 4

  /** Model of `getQuickReplies`. */
  const QuickReplies: seq<string> := ["Projects", "Internships", "AI Work", "Contact", "Surprise me"]

  /** `userInput.toLowerCase().trim()` */
  function Normalize(s: string): string {
    Trim(Lower(s))
  }

  /** `keywords.some(k => input.includes(k))` */
  predicate MentionsAny(input: string, keywords: seq<string>) {
    exists k :: k in keywords && Contains(input, k)
  }

  predicate IsGreeting(input: string) {
    MentionsAny(input, GreetingKeywords) && Utf16Length(input) < GreetingLengthLimit
  }

  /** `kbData.intents[name]`; a missing key reads as `undefined`. */
  function EntryFor(kb: Kb, name: string): KbEntry {
    if name in kb.intents then kb.intents[name] else Unusable
  }

  predicate Usable(e: KbEntry) {
    e.Structured? || e.Plain?
  }

  /** Intent `i` answers the input: one of its keywords occurs and its entry is usable. */
  predicate Fires(kb: Kb, input: string, i: nat)
    requires i < IntentCount
  {
    MentionsAny(input, Keywords(i)) && Usable(EntryFor(kb, IntentName(i)))
  }

  /** The scan over the intent table from position `i` on. */
  function SelectFrom(kb: Kb, input: string, i: nat): (r: Option<nat>)
    requires i <= IntentCount
    ensures r.Some? ==> i <= r.value < IntentCount && Fires(kb, input, r.value)
    ensures r.Some? ==> forall j :: i <= j < r.value ==> !Fires(kb, input, j)
    ensures r.None? ==> forall j :: i <= j < IntentCount ==> !Fires(kb, input, j)
    decreases IntentCount - i
  {
    if i == IntentCount then None
    else if Fires(kb, input, i) then Some(i)
    else SelectFrom(kb, input, i + 1)
  }

  /** The first intent that answers, if any. */
  function Select(kb: Kb, input: string): Option<nat> {
    SelectFrom(kb, input, 0)
  }

  /** The reply a usable entry produces. */
  function Resolve(e: KbEntry, d: Draws): (r: Reply)
    requires Usable(e) && ValidDraws(d)
    ensures e.Plain? ==> r == Reply(e.text, Some(StandardFollowUps))
    ensures e.Structured? ==> r.followUp == e.followUp
    ensures e.Structured? && e.response != SurpriseSentinel ==> r.response == e.response
    ensures e.Structured? && e.response == SurpriseSentinel ==>
              r.response == d.surprise
  {
    match e
    case Structured(response, followUp) =>
      if response == SurpriseSentinel then Reply(d.surprise, followUp)
      else Reply(response, followUp)
    case Plain(text) => Reply(text, Some(StandardFollowUps))
  }

  /** The greeting reply: a greeting line chosen by the draw and the standard chips. */
  function GreetingReply(kb: Kb, d: Draws): (r: Reply)
    requires ValidKb(kb) && ValidDraws(d)
    ensures r.response in kb.greetings
    ensures r.followUp == Some(StandardFollowUps)
  {
    Reply(kb.greetings[Surprises.PickIndex(d.greeting, |kb.greetings|)], Some(StandardFollowUps))
  }

  /** What the intent table answers for a normalised input: the first intent that fires, or the default. */
  function TableReply(kb: Kb, input: string, d: Draws): Reply
    requires ValidDraws(d)
  {
    match Select(kb, input)
    case Some(i) => Resolve(EntryFor(kb, IntentName(i)), d)
    case None => kb.fallback
  }

  /** The reply to an input that is already lower-cased and trimmed. */
  function Respond(kb: Kb, input: string, d: Draws): Reply
    requires ValidKb(kb) && ValidDraws(d)
  {
    if IsGreeting(input) then GreetingReply(kb, d) else TableReply(kb, input, d)
  }

  /**
    Model of `matchIntent`. Total: every input gets a reply. A short input
    naming a greeting gets a greeting line; otherwise the first intent that
    fires answers; otherwise the default entry does.
   */
  function MatchIntent(kb: Kb, userInput: string, d: Draws): (r: Reply)
    requires ValidKb(kb) && ValidDraws(d)
    ensures IsGreeting(Normalize(userInput)) ==>
              r.response in kb.greetings && r.followUp == Some(StandardFollowUps)
    ensures forall i :: 0 <= i < IntentCount && !IsGreeting(Normalize(userInput))
                        && Fires(kb, Normalize(userInput), i)
                        && (forall j :: 0 <= j < i ==> !Fires(kb, Normalize(userInput), j)) ==>
              r == Resolve(EntryFor(kb, IntentName(i)), d)
    ensures !IsGreeting(Normalize(userInput))
            && (forall i :: 0 <= i < IntentCount ==> !Fires(kb, Normalize(userInput), i)) ==>
              r == kb.fallback
  {
    SelectIsFirstFiring(kb, Normalize(userInput));
    Respond(kb, Normalize(userInput), d)
  }

  /** The intent the scan selects is the first that fires, and it selects none when none fires. */
  lemma SelectIsFirstFiring(kb: Kb, input: string)
    ensures forall i :: 0 <= i < IntentCount && Fires(kb, input, i)
                        && (forall j :: 0 <= j < i ==> !Fires(kb, input, j)) ==>
              Select(kb, input) == Some(i)
    ensures (forall i :: 0 <= i < IntentCount ==> !Fires(kb, input, i)) ==> Select(kb, input) == None
  {
    var r := SelectFrom(kb, input, 0);
    forall i | 0 <= i < IntentCount && Fires(kb, input, i)
               && (forall j :: 0 <= j < i ==> !Fires(kb, input, j))
      ensures r == Some(i)
    {
      if r.Some? {
        assert !(r.value < i);
      }
    }
  }

  // ---------------------------------------------------------------------------
  // Normalisation
  // ---------------------------------------------------------------------------

  lemma NormalizeIdempotent(s: string)
    ensures Normalize(Normalize(s)) == Normalize(s)
  {
    var t := Trim(Lower(s));
    TrimKeepsNoUpper(Lower(s));
    LowerOfNoUpper(t);
    TrimIdempotent(Lower(s));
  }

  /** The reply depends on the input only through its lower-cased, trimmed form. */
  lemma MatchDependsOnlyOnNormalForm(kb: Kb, s: string, d: Draws)
    requires ValidKb(kb) && ValidDraws(d)
    ensures MatchIntent(kb, s, d) == MatchIntent(kb, Normalize(s), d)
  {
    NormalizeIdempotent(s);
  }

  lemma NormalizeExample()
    ensures Normalize("  PROJECTS ") == "projects"
  {
    assert Lower("  PROJECTS ") == "  " + "projects" + " ";
    TrimAround("  ", "projects", " ");
  }

  // ---------------------------------------------------------------------------
  // The greeting branch
  // ---------------------------------------------------------------------------

  /** A greeting never looks at the intent entries or the fallback. */
  lemma GreetingIgnoresTable(kb: Kb, other: map<string, KbEntry>, fallback: Reply, s: string, d: Draws)
    requires ValidKb(kb) && ValidDraws(d)
    requires IsGreeting(Normalize(s))
    ensures MatchIntent(kb, s, d) == MatchIntent(Kb(kb.greetings, other, fallback), s, d)
  {
  }

  /** An input of 20 or more UTF-16 units never gets the greeting, whatever it contains. */
  lemma LongInputSkipsGreeting(kb: Kb, s: string, d: Draws)
    requires ValidKb(kb) && ValidDraws(d)
    requires Utf16Length(Normalize(s)) >= GreetingLengthLimit
    ensures MatchIntent(kb, s, d) == TableReply(kb, Normalize(s), d)
  {
  }

  /** A short input that names a greeting word anywhere inside it is greeted. */
  lemma ShortGreetingWordIsGreeted(kb: Kb, s: string, k: string, d: Draws)
    requires ValidKb(kb) && ValidDraws(d)
    requires k in GreetingKeywords && Contains(Normalize(s), k)
    requires Utf16Length(Normalize(s)) < GreetingLengthLimit
    ensures MatchIntent(kb, s, d).followUp == Some(StandardFollowUps)
    ensures MatchIntent(kb, s, d).response in kb.greetings
  {
  }

  /**
    Because the greeting test is a substring test, the chips the greeting itself
    offers ("Your projects", "Your experience", "Your skills") come back as
    greetings: they hold "yo".
   */
  lemma ProjectsChipGreets(kb: Kb, d: Draws)
    requires ValidKb(kb) && ValidDraws(d)
    ensures MatchIntent(kb, StandardFollowUps[0], d) == GreetingReply(kb, d)
  {
    GreetedThrough(kb, d, "Your projects", "your projects", "", "yo", "ur projects");
  }

  lemma ExperienceChipGreets(kb: Kb, d: Draws)
    requires ValidKb(kb) && ValidDraws(d)
    ensures MatchIntent(kb, StandardFollowUps[1], d) == GreetingReply(kb, d)
  {
    GreetedThrough(kb, d, "Your experience", "your experience", "", "yo", "ur experience");
  }

  lemma SkillsChipGreets(kb: Kb, d: Draws)
    requires ValidKb(kb) && ValidDraws(d)
    ensures MatchIntent(kb, StandardFollowUps[2], d) == GreetingReply(kb, d)
  {
    GreetedThrough(kb, d, "Your skills", "your skills", "", "yo", "ur skills");
  }

  /** The quick reply "Internships" holds "hi", so it is answered with a greeting. */
  lemma InternshipsQuickReplyGreets(kb: Kb, d: Draws)
    requires ValidKb(kb) && ValidDraws(d)
    ensures MatchIntent(kb, QuickReplies[1], d) == GreetingReply(kb, d)
  {
    GreetedThrough(kb, d, "Internships", "internships", "interns", "hi", "ps");
  }

  /** A short, already trimmed input whose lower-cased form holds a greeting word is greeted. */
  lemma GreetedThrough(kb: Kb, d: Draws, s: string, lower: string, pre: string, k: string, post: string)
    requires ValidKb(kb) && ValidDraws(d)
    requires Lower(s) == lower && lower == pre + k + post
    requires |lower| > 0 && !IsSpace(lower[0]) && !IsSpace(lower[|lower| - 1])
    requires k in GreetingKeywords && Utf16Length(lower) < GreetingLengthLimit
    ensures MatchIntent(kb, s, d) == GreetingReply(kb, d)
  {
    NormalFormOf(s, lower);
    GreetingWordInside(pre, k, post);
  }

  /** An input whose lower-cased form has no space at either end normalises to that form. */
  lemma NormalFormOf(s: string, lower: string)
    requires Lower(s) == lower
    requires |lower| > 0 && !IsSpace(lower[0]) && !IsSpace(lower[|lower| - 1])
    ensures Normalize(s) == lower
  {
    TrimOfTrimmed(lower);
  }

  lemma GreetingWordInside(pre: string, k: string, post: string)
    requires k in GreetingKeywords
    ensures MentionsAny(pre + k + post, GreetingKeywords)
  {
    ContainsOfConcat(pre, k, post);
  }

  // ---------------------------------------------------------------------------
  // The intent table
  // ---------------------------------------------------------------------------

  /**
    Later intents are never consulted: any knowledge base that agrees on the
    entries of the intents up to the chosen one chooses the same intent.
   */
  lemma FirstMatchWins(kb: Kb, kb': Kb, input: string)
    requires Select(kb, input).Some?
    requires forall j :: 0 <= j <= Select(kb, input).value ==>
               EntryFor(kb, IntentName(j)) == EntryFor(kb', IntentName(j))
    ensures Select(kb', input) == Select(kb, input)
  {
    var i := Select(kb, input).value;
    assert Fires(kb', input, i);
    var i' := Select(kb', input);
    if i'.Some? && i'.value < i {
      assert Fires(kb, input, i'.value);
    }
  }

  /** No keyword of the table or of the greeting list is empty. */
  lemma NoKeywordIsEmpty(i: nat)
    requires i < IntentCount
    ensures forall k :: k in Keywords(i) ==> |k| > 0
    ensures forall k :: k in GreetingKeywords ==> |k| > 0
  {
  }

  /** Nothing non-empty occurs in the empty string. */
  lemma EmptyMentionsNothing(ks: seq<string>)
    requires forall k :: k in ks ==> |k| > 0
    ensures !MentionsAny("", ks)
  {
    forall k | k in ks ensures !Contains("", k) {
      if Contains("", k) { ContainsLength("", k); }
    }
  }

  lemma BlankNormalizesToEmpty(s: string)
    requires AllSpace(s)
    ensures Normalize(s) == ""
  {
    assert AllSpace(Lower(s)) by {
      forall i | 0 <= i < |s| ensures IsSpace(Lower(s)[i]) {
        assert IsSpace(s[i]);
      }
    }
    TrimEmptyIff(Lower(s));
  }

  /** No intent answers the empty input. */
  lemma NothingFiresOnEmpty(kb: Kb)
    ensures Select(kb, "").None?
  {
    forall i | 0 <= i < IntentCount ensures !Fires(kb, "", i) {
      NoKeywordIsEmpty(i);
      EmptyMentionsNothing(Keywords(i));
    }
  }

  /** Empty or all-space input falls through to the knowledge base's default entry. */
  lemma BlankInputGetsDefault(kb: Kb, s: string, d: Draws)
    requires ValidKb(kb) && ValidDraws(d)
    requires AllSpace(s)
    ensures MatchIntent(kb, s, d) == kb.fallback
  {
    BlankNormalizesToEmpty(s);
    NoKeywordIsEmpty(0);
    EmptyMentionsNothing(GreetingKeywords);
    NothingFiresOnEmpty(kb);
  }


  /** No keyword of `ks` occurs when each one has a character (`cs[i]`) the input lacks. */
  lemma NoneMentioned(input: string, ks: seq<string>, cs: seq<char>)
    requires |cs| == |ks|
    requires forall i :: 0 <= i < |ks| ==> cs[i] in ks[i] && cs[i] !in input
    ensures !MentionsAny(input, ks)
  {
    forall k | k in ks ensures !Contains(input, k) {
      var i :| 0 <= i < |ks| && ks[i] == k;
      MissingCharRulesOut(input, k, cs[i]);
    }
  }

  /** Without the letters h, g, s and y no greeting keyword can occur. */
  lemma NoGreetingLetters(input: string)
    requires 'h' !in input && 'g' !in input && 's' !in input && 'y' !in input
    ensures !MentionsAny(input, GreetingKeywords)
  {
    MissingCharRulesOut(input, "hi", 'h');
    MissingCharRulesOut(input, "hello", 'h');
    MissingCharRulesOut(input, "hey", 'h');
    MissingCharRulesOut(input, "greetings", 'g');
    MissingCharRulesOut(input, "sup", 's');
    MissingCharRulesOut(input, "yo", 'y');
  }

  /** The words the internships intent listens for, one at a time. */
  lemma InternshipsSilent(input: string)
    requires !MentionsAny(input, Keywords(InternshipsIntent))
    ensures !Contains(input, "experience") && !Contains(input, "work") && !Contains(input, "job")
  {
    assert "experience" in Keywords(InternshipsIntent);
    assert "work" in Keywords(InternshipsIntent);
    assert "job" in Keywords(InternshipsIntent);
  }

  /** Of the experience intent's keywords, only "career" is left once internships is silent. */
  lemma OnlyCareerLeft(input: string)
    requires MentionsAny(input, Keywords(ExperienceIntent))
    requires !Contains(input, "experience") && !Contains(input, "work history") && !Contains(input, "jobs")
    ensures Contains(input, "career")
  {
  }

  /**
    The `experience` intent is shadowed by `internships`: whenever the
    internships entry is usable, the experience intent can only be chosen
    through "career", never through "experience", "work history" or "jobs".
   */
  lemma ExperienceOnlyThroughCareer(kb: Kb, input: string)
    requires Usable(EntryFor(kb, "internships"))
    requires Select(kb, input) == Some(ExperienceIntent)
    ensures Contains(input, "career")
    ensures !Contains(input, "experience")
    ensures !Contains(input, "work history")
    ensures !Contains(input, "jobs")
  {
    assert !Fires(kb, input, InternshipsIntent);
    InternshipsSilent(input);
    if Contains(input, "work history") {
      ContainsOfConcat("", "work", " history");
      ContainsTransitive(input, "work history", "work");
    }
    if Contains(input, "jobs") {
      ContainsOfConcat("", "job", "s");
      ContainsTransitive(input, "jobs", "job");
    }
    assert Fires(kb, input, ExperienceIntent);
    OnlyCareerLeft(input);
  }

  /**
    Any input mentioning "email" also contains "ai", so while the ai entry is
    usable such an input never reaches the contact intent.
   */
  lemma EmailNeverReachesContact(kb: Kb, input: string)
    requires Usable(EntryFor(kb, "ai"))
    requires Contains(input, "email")
    ensures Select(kb, input).Some? && Select(kb, input).value <= AiIntent
  {
    ContainsOfConcat("em", "ai", "l");
    ContainsTransitive(input, "email", "ai");
    assert "ai" in Keywords(AiIntent);
    assert Fires(kb, input, AiIntent);
  }

  lemma EmailIsNormal()
    ensures Normalize("email") == "email"
    ensures !IsGreeting("email")
  {
    NoGreetingLetters("email");
    NormalFormOf("email", "email");
  }

  /** "email" holds none of the keywords of the first three intents. */
  lemma EmailMissesFirstIntents(kb: Kb)
    ensures !Fires(kb, "email", ProjectsIntent)
    ensures !Fires(kb, "email", InternshipsIntent)
    ensures !Fires(kb, "email", ExperienceIntent)
  {
    NoneMentioned("email", Keywords(ProjectsIntent), "ppbdcw");
    NoneMentioned("email", Keywords(InternshipsIntent), "nnjwxcc");
    NoneMentioned("email", Keywords(ExperienceIntent), "xwjc");
  }

  /** The bare word "email" is answered by the ai entry. */
  lemma EmailAnsweredByAi(kb: Kb, d: Draws)
    requires ValidKb(kb) && ValidDraws(d)
    requires Usable(EntryFor(kb, "ai"))
    ensures MatchIntent(kb, "email", d) == Resolve(EntryFor(kb, "ai"), d)
  {
    EmailIsNormal();
    ContainsOfConcat("", "email", "");
    EmailNeverReachesContact(kb, "email");
    EmailMissesFirstIntents(kb);
    assert Select(kb, "email") == Some(AiIntent);
  }

  lemma ExperienceIsNormal()
    ensures Normalize("experience") == "experience"
    ensures !IsGreeting("experience")
  {
    NoGreetingLetters("experience");
    NormalFormOf("experience", "experience");
  }

  /** The bare word "experience" is answered by internships, not by experience. */
  lemma ExperienceAnsweredByInternships(kb: Kb, d: Draws)
    requires ValidKb(kb) && ValidDraws(d)
    requires Usable(EntryFor(kb, "internships"))
    ensures MatchIntent(kb, "experience", d) == Resolve(EntryFor(kb, "internships"), d)
  {
    ExperienceIsNormal();
    NoneMentioned("experience", Keywords(ProjectsIntent), "jjbmaw");
    ContainsOfConcat("", "experience", "");
    assert "experience" in Keywords(InternshipsIntent);
    assert Fires(kb, "experience", InternshipsIntent);
    assert Select(kb, "experience") == Some(InternshipsIntent);
  }

  /** The quick replies offered when the chat opens. */
  lemma QuickRepliesShape()
    ensures |QuickReplies| == 5
    ensures QuickReplies[1] == "Internships"
  {
  }

  /**
    An entry whose response is the surprise template answers with a generated
    surprise: one of the fun facts, project details or code snippets, never empty.
   */
  lemma SurpriseEntryShowsSurprise(e: KbEntry, greeting: real, kind: real, pick: real)
    requires e.Structured? && e.response == SurpriseSentinel
    requires Surprises.IsDraw(greeting) && Surprises.IsDraw(kind) && Surprises.IsDraw(pick)
    ensures var text := Surprises.Surprise(kind, pick);
            var r := Resolve(e, Draws(greeting, text));
            && r.response == text
            && r.followUp == e.followUp
            && |r.response| > 0
  {
    Surprises.SurpriseNonEmpty(kind, pick);
  }
}
