/**
  The "surprise me" generator: one draw picks the kind of content (40% fun
  fact, 30% project deep-dive, 30% code snippet), a second draw picks an
  entry of that pool, and the entry is formatted as chat text. The two
  `Math.random()` calls are the parameters `r` and `u`.
 */
module Surprises {
  import opened Strings

  datatype Detail = Detail(title: string, content: string)
  datatype Snippet = Snippet(title: string, language: string, code: string)

  /** The three pools, in the order their bands sit on [0, 1). */
  datatype Kind = FunFact | ProjectDetail | CodeSnippet

  const FunFacts: seq<string> := [
    "\U{1F3AF} Nathan's superpower? Shipping fast. He built the Fetch prototype demo in record time and presented it to the CEO!",
    "\U{1F9E0} The AttentioFlow AI project uses PyTorch to predict when you're about to get distracted. It's like having a focus coach in your computer!",
    "\U{1F47D} For the UFO project, Nathan analyzed 80,000+ sighting descriptions. Turns out people see a lot of weird stuff in the sky!",
    "\U{1F4B0} At Exact Sciences, Nathan's automation script saved the company $140,000 by identifying and removing over 2,000 unused accounts.",
    "\U{1F680} Nathan increased MongoDB insertion speed by 70% at AT&T while migrating 100+ million documents. That's a LOT of data!",
    "\U{1F510} He reduced manual PDF processing effort by 90% using Python automation that integrated with Microsoft Outlook.",
    "\U{1F4CA} Fun fact: Nathan's auditing scripts at Lumen logged over 10,000 errors into MongoDB. Finding problems is half the battle!",
    "\U{1F393} Nathan's studying Computer Science AND Business at UW\U{2013}Madison. Best of both worlds!",
    "\U{26A1} This website has Easter eggs! Triple-click the logo in the header for a wild ride.",
    "\U{1F319} The site theme changes based on time of day. It's morning/day/night aware!"
  ]

  const ProjectDetails: seq<Detail> := [
    Detail(
      "AttentioFlow AI Deep Dive",
      "Here's what makes AttentioFlow special:\n\n\U{2728} **Real-time inference** with a PyTorch Neural Network\n\U{1F3AF} **Temporal feature engineering** from digital interaction data using psutil and pynput\n\U{1F514} **Proactive AI nudges** via the plyer library when distraction is detected\n\U{1F4BE} **Model persistence** with torch.save/load for continuous learning\n\nIt's basically a personal focus guardian powered by deep learning!"),
    Detail(
      "Fetch Prototype Story",
      "The Fetch prototype is a great example of rapid execution:\n\n\U{1F3C3} **Rapid prototyping** - Built a working demo fast\n\U{1F454} **Executive presentation** - Demoed directly to CEO and Chief of Staff\n\U{1F4F1} **Mobile-first** - Built for the modern user experience\n\U{1F4A1} **Product thinking** - Not just code, but solving real user problems\n\nSometimes the best way to explain an idea is to build it!"),
    Detail(
      "UFO Analysis Insights",
      "The UFO Sightings project was a wild ride through 80,000+ reports:\n\n\U{1F50D} **K-Means clustering** to find patterns in sighting descriptions\n\U{1F60A} **Sentiment analysis** using Naive Bayes, Logistic Regression, and SVM\n\U{1F4C8} **Predictive analytics** with linear regression for encounter forecasting\n\U{1F5FA}\U{FE0F} **Geospatial analysis** to see where sightings cluster\n\nThe truth IS out there... in the data!"),
    Detail(
      "AT&T Impact",
      "At AT&T, Nathan worked at serious scale:\n\n\U{1F4E6} **100+ million documents** migrated to INLAP\n\U{26A1} **70% faster** insertion speed using Java Spring Boot and MongoDB\n\U{1F4C4} **90% reduction** in manual PDF processing effort\n\U{1F512} **Patent-pending** AI network analyzer for incident response\n\nThat's enterprise-grade impact!"),
    Detail(
      "The $140K Save",
      "Here's a cool story from Exact Sciences:\n\nNathan built a VBA macro that integrated Okta and Active Directory to analyze account usage. The result?\n\n\U{1F4B0} **$140,000 saved** through algorithmic identification\n\U{1F50D} **2,000+ accounts** found and removed\n\U{2699}\U{FE0F} **Automation** replaced manual analysis\n\nProof that good automation can have serious ROI!")
  ]

  const CodeSnippets: seq<Snippet> := [
    Snippet(
      "Clean Python Pattern",
      "python",
      "# Nathan's approach to API error handling\ndef safe_api_call(func):\n    \"\"\"Decorator for graceful API failures\"\"\"\n    def wrapper(*args, **kwargs):\n        try:\n            return func(*args, **kwargs)\n        except Exception as e:\n            logger.warning(f\"API call failed: {e}\")\n            return None  # Fail gracefully\n    return wrapper\n\n@safe_api_call\ndef fetch_data(endpoint):\n    response = requests.get(endpoint)\n    return response.json()"),
    Snippet(
      "MongoDB Optimization",
      "javascript",
      "// Bulk insert pattern used at AT&T\n// Increased insertion speed by 70%!\nconst bulkOps = documents.map(doc => ({\n  insertOne: { document: doc }\n}));\n\nawait collection.bulkWrite(bulkOps, {\n  ordered: false,  // Parallel inserts\n  writeConcern: { w: 1 }\n});"),
    Snippet(
      "PyTorch Model Persistence",
      "python",
      "# From AttentioFlow AI\n# Saving model state for continuous learning\ntorch.save({\n    'model_state': model.state_dict(),\n    'optimizer_state': optimizer.state_dict(),\n    'epoch': epoch,\n    'loss': loss\n}, 'checkpoint.pt')\n\n# Load and continue training\ncheckpoint = torch.load('checkpoint.pt')\nmodel.load_state_dict(checkpoint['model_state'])")
  ]

  /** A value `Math.random()` can return. */
  predicate IsDraw(u: real) {
    0.0 <= u < 1.0
  }

  /** Chance of each kind, as the source's comments state it. */
  function Weight(k: Kind): real {
    match k
    case FunFact => 0.4
    case ProjectDetail => 0.3
    case CodeSnippet => 0.3
  }

  /** Start of a kind's band: the weights of the kinds before it, added up. */
  function BandStart(k: Kind): real {
    match k
    case FunFact => 0.0
    case ProjectDetail => Weight(FunFact)
    case CodeSnippet => Weight(FunFact) + Weight(ProjectDetail)
  }

  /** Which pool the first draw selects. */
  function KindOf(r: real): (k: Kind)
    ensures IsDraw(r) ==> BandStart(k) <= r < BandStart(k) + Weight(k)
  {
    if r < 0.4 then FunFact else if r < 0.7 then ProjectDetail else CodeSnippet
  }

  /**
    The thresholds 0.4 and 0.7 are the cumulative weights: every draw lands in
    exactly one half-open band `[BandStart(k), BandStart(k) + Weight(k))`, and
    the bands tile [0, 1).
   */
  lemma KindOfBands(r: real, k: Kind)
    requires IsDraw(r)
    ensures KindOf(r) == k <==> BandStart(k) <= r < BandStart(k) + Weight(k)
    ensures Weight(FunFact) + Weight(ProjectDetail) + Weight(CodeSnippet) == 1.0
  {
  }

  /** Model of `Math.floor(u * n)`: an index into a pool of `n` entries. */
  function PickIndex(u: real, n: nat): (i: nat)
    requires IsDraw(u) && n > 0
    ensures i < n
    ensures i as real <= u * n as real < i as real + 1.0
  {
    var x := u * n as real;
    ScaleBelow(u, n as real);
    x.Floor
  }

  /** A fraction below one of a positive amount stays below that amount. */
  lemma ScaleBelow(u: real, n: real)
    requires 0.0 <= u < 1.0 && n > 0.0
    ensures 0.0 <= u * n < n
  {
    assert n - u * n == (1.0 - u) * n;
  }

  /** A deep-dive entry as chat text: a bold title, a blank line, the body. */
  function DetailText(d: Detail): (text: string)
    ensures StartsWith(text, "**" + d.title + "**")
    ensures EndsWith(text, "\n\n" + d.content)
    ensures |text| == |d.title| + 4 + 2 + |d.content|
  {
    "**" + d.title + "**\n\n" + d.content
  }

  /** The line the assistant adds after every snippet. */
  const SignOff: string := "\n\nNathan writes clean, production-ready code!"
  /** Closing fence, then the sign-off. */
  const SnippetTrailer: string := "\n```" + SignOff

  /** A code snippet as chat text: bold title, a fenced block tagged with the language, a sign-off. */
  function SnippetText(s: Snippet): (text: string)
    ensures var head := "**" + s.title + "**\n```" + s.language + "\n";
            && StartsWith(text, head)
            && EndsWith(text, SnippetTrailer)
            && |text| == |head| + |s.code| + |SnippetTrailer|
            && text[|head|..|text| - |SnippetTrailer|] == s.code
  {
    "**" + s.title + "**\n```" + s.language + "\n" + s.code + SnippetTrailer
  }

  /** Model of `getRandomSurprise` with both draws supplied. */
  function Surprise(r: real, u: real): (text: string)
    requires IsDraw(r) && IsDraw(u)
    ensures r < 0.4 ==> text in FunFacts
    ensures 0.4 <= r < 0.7 ==>
              exists i :: 0 <= i < |ProjectDetails| && text == DetailText(ProjectDetails[i])
    ensures 0.7 <= r ==>
              exists i :: 0 <= i < |CodeSnippets| && text == SnippetText(CodeSnippets[i])
  {
    match KindOf(r)
    case FunFact => FunFacts[PickIndex(u, |FunFacts|)]
    case ProjectDetail => DetailText(ProjectDetails[PickIndex(u, |ProjectDetails|)])
    case CodeSnippet => SnippetText(CodeSnippets[PickIndex(u, |CodeSnippets|)])
  }

  /** The shipped pools: ten facts, five project details, three snippets. */
  lemma PoolSizes()
    ensures |FunFacts| == 10 && |ProjectDetails| == 5 && |CodeSnippets| == 3
  {
  }

  /** Every surprise is non-empty text. */
  lemma SurpriseNonEmpty(r: real, u: real)
    requires IsDraw(r) && IsDraw(u)
    ensures |Surprise(r, u)| > 0
  {
    var i := PickIndex(u, 10);
    if r < 0.4 {
      assert |FunFacts[i]| > 0;
    }
  }

  /** The draw `u = i / n` picks entry `i` of a pool of `n`. */
  lemma PickIndexHits(i: nat, n: nat)
    requires i < n
    ensures IsDraw(i as real / n as real)
    ensures PickIndex(i as real / n as real, n) == i
  {
    var u := i as real / n as real;
    assert u * n as real == i as real;
  }

  /** Conversely, every pool entry is produced by some pair of draws. */
  lemma EveryEntryReachable(k: Kind, i: nat)
    requires k == FunFact ==> i < |FunFacts|
    requires k == ProjectDetail ==> i < |ProjectDetails|
    requires k == CodeSnippet ==> i < |CodeSnippets|
    ensures exists r: real, u: real :: IsDraw(r) && IsDraw(u) &&
              Surprise(r, u) == match k
                                case FunFact => FunFacts[i]
                                case ProjectDetail => DetailText(ProjectDetails[i])
                                case CodeSnippet => SnippetText(CodeSnippets[i])
  {
    var r := BandStart(k);
    match k
    case FunFact =>
      PickIndexHits(i, |FunFacts|);
      var u := i as real / |FunFacts| as real;
      assert Surprise(r, u) == FunFacts[i];
    case ProjectDetail =>
      PickIndexHits(i, |ProjectDetails|);
      var u := i as real / |ProjectDetails| as real;
      assert Surprise(r, u) == DetailText(ProjectDetails[i]);
    case CodeSnippet =>
      PickIndexHits(i, |CodeSnippets|);
      var u := i as real / |CodeSnippets| as real;
      assert Surprise(r, u) == SnippetText(CodeSnippets[i]);
  }

}
