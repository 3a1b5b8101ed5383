/**
 * The AI service (server/services/aiService.js): which provider answers is
 * fixed by the configured keys; every provider failure, a malformed reply
 * included, falls back to the offline parser or analyser for the same input.
 *
 * Vendor SDK calls are oracles from the request to a `Call` outcome, and
 * `JSON.parse` is an oracle from text to a `Decoded` value; `Math.random`
 * becomes the chosen indices in `Draws`.
 */
module AiService {
  import opened Common
  import opened JsString
  import opened TaskModel

  /** The keys read once when the service is built. */
  datatype AiConfig = AiConfig(openaiKey: Option<string>, geminiKey: Option<string>)

  datatype Provider = OpenAI | Gemini | Offline

  /** OpenAI when its key is set, else Gemini when its key is set, else offline. */
  function ProviderOf(cfg: AiConfig): (p: Provider)
    ensures p == OpenAI <==> Truthy(cfg.openaiKey)
    ensures p == Gemini <==> !Truthy(cfg.openaiKey) && Truthy(cfg.geminiKey)
  {
    if Truthy(cfg.openaiKey) then OpenAI
    else if Truthy(cfg.geminiKey) then Gemini
    else Offline
  }

  /** What a vendor call produced: an exception, or the reply text. */
  datatype Call = Threw | Replied(text: string)

  /** What `JSON.parse` produced: an exception, the value `null`, or an object. */
  datatype Decoded<T> = Malformed | JsonNull | Object(value: T)

  /** An intent reply; `None` is a property the object lacks (or holds `null`). */
  datatype IntentReply = IntentReply(topic: Option<string>, frequency: Option<string>, confirmation: Option<string>)

  /** An analysis reply: strings the caller copies into a result. */
  datatype AnalysisReply = AnalysisReply(summary: Option<string>, sentiment: Option<string>, insight: Option<string>)

  /** What an analysis prompt carries: the topic and the (cut) news text. */
  datatype AnalysisRequest = AnalysisRequest(topic: string, content: string)

  type SentimentDraw = i: nat | i < 3
  type InsightDraw = i: nat | i < 5

  /** The indices `Math.floor(Math.random() * n)` picked in the offline analyser. */
  datatype Draws = Draws(sentiment: SentimentDraw, insight: InsightDraw)

  /** The vendors' answers to an intent request, and the JSON decoder. */
  datatype IntentOracle = IntentOracle(
    openai: string -> Call,
    gemini: string -> Call,
    decode: string -> Decoded<IntentReply>)

  /** The vendors' answers to an analysis request, the JSON decoder, and the offline draws. */
  datatype AnalysisOracle = AnalysisOracle(
    openai: AnalysisRequest -> Call,
    gemini: AnalysisRequest -> Call,
    decode: string -> Decoded<AnalysisReply>,
    draws: Draws)

  const OpenAIInputLimit: nat := 2000
  const GeminiInputLimit: nat := 4000

  // ---------------------------------------------------------------------
  // Reply handling shared by both vendors

  /** The call failed, or its text is not JSON: the cases the `catch` blocks handle. */
  predicate Fails<T>(c: Call, decode: string -> Decoded<T>)
  {
    c.Threw? || decode(c.text).Malformed?
  }

  /** `try { return JSON.parse(text) } catch { return fallback }`; `None` is a parsed `null`. */
  function Settle<T>(c: Call, decode: string -> Decoded<T>, fallback: T): (r: Option<T>)
    ensures Fails(c, decode) ==> r == Some(fallback)
    ensures r.None? <==> c.Replied? && decode(c.text).JsonNull?
    ensures c.Replied? && decode(c.text).Object? ==> r == Some(decode(c.text).value)
  {
    match c
    case Threw => Some(fallback)
    case Replied(text) =>
      match decode(text)
      case Malformed => Some(fallback)
      case JsonNull => None
      case Object(v) => Some(v)
  }

  /** Gemini's reply cleanup: drop every "```json", then every "```", then trim. */
  function CleanFences(text: string): (r: string)
    ensures IsTrimmed(r)
  {
    Trim(RemoveAll(RemoveAll(text, "```json"), Fence))
  }

  /** The cleaned text holds no fence at all. */
  lemma CleanFencesFenceFree(text: string)
    ensures !Contains(CleanFences(text), Fence)
  {
    var x := RemoveAll(RemoveAll(text, "```json"), Fence);
    RemoveAllFenceFree(RemoveAll(text, "```json"));
    var i, j := TrimSlice(x);
    if Contains(CleanFences(text), Fence) {
      ContainsSlice(x, i, j, Fence);
    }
  }

  /** Text with no backtick and no surrounding white space is left as it is. */
  lemma CleanFencesKeepsPlainText(text: string)
    requires '`' !in text && IsTrimmed(text)
    ensures CleanFences(text) == text
  {
    NoTickNoPattern(text, "```json");
    RemoveAllAbsent(text, "```json");
    NoTickNoPattern(text, Fence);
    RemoveAllAbsent(text, Fence);
    TrimKeepsTrimmed(text);
  }

  /** Cleaning twice is cleaning once. */
  lemma CleanFencesIdempotent(text: string)
    ensures CleanFences(CleanFences(text)) == CleanFences(text)
  {
    var c := CleanFences(text);
    CleanFencesFenceFree(text);
    assert !Contains(c, "```json") by {
      if Contains(c, "```json") {
        ContainsAt(c, "```json");
        var k: nat :| OccursAt(c, "```json", k);
        assert c[k..k + 3] == c[k..k + 7][..3];
        assert OccursAt(c, Fence, k);
        ContainsAt(c, Fence);
      }
    }
    RemoveAllAbsent(c, "```json");
    RemoveAllAbsent(c, Fence);
    TrimKeepsTrimmed(c);
  }

  /** A Gemini call with its reply cleaned: a failure stays a failure, a reply loses every fence. */
  function Cleaned(c: Call): (r: Call)
    ensures r.Threw? <==> c.Threw?
    ensures r.Replied? ==> r.text == CleanFences(c.text) && !Contains(r.text, Fence)
  {
    match c
    case Threw => Threw
    case Replied(text) =>
      CleanFencesFenceFree(text);
      Replied(CleanFences(text))
  }

  // ---------------------------------------------------------------------
  // Offline intent parser

  const OfflineConfirmation: string :=
    "I'm running in **Offline Mode** (AI Key issue detected). Try saying 'Track Bitcoin' to see how I work!"

  /** The reply when no tracking request is recognised: no topic, no frequency. */
  const OfflineReply: IntentReply := IntentReply(None, None, Some(OfflineConfirmation))

  /** Whether a lower-cased string mentions one of the tracking keywords. */
  predicate MentionsKeyword(s: string)
  {
    Contains(s, "track") || Contains(s, "monitor") || Contains(s, "watch") || Contains(s, "follow")
  }

  /** `words.findIndex(w => keyword in w.toLowerCase())`: the first keyword word, or -1. */
  function KeywordIndex(words: seq<string>): (i: int)
    ensures -1 <= i < |words|
    ensures i >= 0 ==> MentionsKeyword(ToLower(words[i]))
    ensures i >= 0 ==> forall j :: 0 <= j < i ==> !MentionsKeyword(ToLower(words[j]))
    ensures i == -1 <==> forall j :: 0 <= j < |words| ==> !MentionsKeyword(ToLower(words[j]))
    decreases |words|
  {
    if words == [] then -1
    else if MentionsKeyword(ToLower(words[0])) then 0
    else
      var i := KeywordIndex(words[1..]);
      assert forall j :: 1 <= j < |words| ==> words[j] == words[1..][j - 1];
      if i == -1 then -1 else i + 1
  }

  /** The words after the keyword word, with "every", "hour" and "minute" dropped once each, trimmed. */
  function ExtractTopic(words: seq<string>, i: nat): (r: string)
    requires i < |words|
    ensures IsTrimmed(r)
  {
    Trim(RemoveFirst(RemoveFirst(RemoveFirst(Join(words[i + 1..], " "), "every"), "hour"), "minute"))
  }

  const TopicLimit: nat := 25

  /** A topic over 25 characters keeps its first 25 and gains "...". */
  function Truncate(t: string): (r: string)
    ensures |r| <= TopicLimit + 3
    ensures |t| <= TopicLimit ==> r == t
    ensures |t| > TopicLimit ==> |r| == TopicLimit + 3 && r == Take(t, TopicLimit) + "..."
    ensures IsPrefix(Take(t, TopicLimit), r)
    ensures IsTrimmed(t) ==> IsTrimmed(r)
  {
    if |t| > TopicLimit then t[..TopicLimit] + "..." else t
  }

  /** The offline confirmation for a new tracker; it names the topic. */
  function TrackerConfirmation(topic: string): (r: string)
    ensures Contains(r, topic)
  {
    ContainsInfix("(Offline AI) I've set up a tracker for **", topic, "**. I'll check for updates every hour.");
    "(Offline AI) I've set up a tracker for **" + topic + "**. I'll check for updates every hour."
  }

  /** `mockParseIntent`: keyword detection and topic extraction without any vendor. */
  function MockParseIntent(message: string): (r: IntentReply)
    ensures r.topic.None? <==> r.frequency.None?
    ensures r.topic.None? ==> r == OfflineReply
    ensures !MentionsKeyword(ToLower(message)) ==> r == OfflineReply
    ensures r.topic.Some? ==> |r.topic.value| <= TopicLimit + 3 && IsTrimmed(r.topic.value)
    ensures r.topic.Some? ==> r.frequency == Some(Hourly)
    ensures r.topic.Some? ==> r.confirmation == Some(TrackerConfirmation(r.topic.value))
  {
    if MentionsKeyword(ToLower(message)) then
      var words := Split(message, ' ');
      var i := KeywordIndex(words);
      if i != -1 && i < |words| - 1 then
        var topic := Truncate(ExtractTopic(words, i));
        IntentReply(Some(topic), Some(Hourly), Some(TrackerConfirmation(topic)))
      else OfflineReply
    else OfflineReply
  }

  /** When the keyword word is the last word there is nothing to track. */
  lemma MockKeywordAtEnd(message: string)
    requires KeywordIndex(Split(message, ' ')) == |Split(message, ' ')| - 1
    ensures MockParseIntent(message).topic.None? && MockParseIntent(message).frequency.None?
  {
  }

  /** A topic reply names the words after the first keyword word, cleaned and cut. */
  lemma MockTopicFromWords(message: string)
    requires MockParseIntent(message).topic.Some?
    ensures var words := Split(message, ' ');
      var i := KeywordIndex(words);
      0 <= i < |words| - 1 && MockParseIntent(message).topic.value == Truncate(ExtractTopic(words, i))
  {
  }

  /*
   * The worked example "Track Bitcoin every hour". Its strings are passed as
   * parameters equal to literals, which keeps the verifier from evaluating the
   * recursive string functions on the literals themselves.
   */

  lemma ExampleWords(m: string, ws: seq<string>)
    requires m == "Track Bitcoin every hour" && ws == ["Track", "Bitcoin", "every", "hour"]
    ensures Split(m, ' ') == ws
  {
    assert Join(["Track", "Bitcoin", "every", "hour"], " ") == "Track Bitcoin every hour";
    SplitJoin(ws, ' ');
  }

  lemma ExampleKeyword(m: string, ws: seq<string>)
    requires m == "Track Bitcoin every hour" && ws == ["Track", "Bitcoin", "every", "hour"]
    ensures MentionsKeyword(ToLower(m))
    ensures KeywordIndex(ws) == 0
  {
    assert IsPrefix("track", ToLower(ws[0])) by {
      assert ToLower(ws[0]) == "track";
    }
    assert IsPrefix("track", ToLower(m)) by {
      assert ToLower(m)[..5] == "track";
    }
  }

  lemma ExampleDropEvery(s: string, b: string, every: string, hour: string)
    requires b == "Bitcoin" && every == "every" && hour == "hour"
    requires s == b + " " + every + " " + hour
    ensures RemoveFirst(s, every) == b + "  " + hour
  {
    RemoveFirstAfter(b + " ", every, " " + hour);
    assert s == (b + " ") + every + (" " + hour);
    assert (b + " ") + (" " + hour) == b + "  " + hour;
  }

  lemma ExampleDropHour(b: string, hour: string)
    requires b == "Bitcoin" && hour == "hour"
    ensures RemoveFirst(b + "  " + hour, hour) == b + "  "
  {
    RemoveFirstAfter(b + "  ", hour, []);
    assert b + "  " + hour + [] == b + "  " + hour;
    assert b + "  " + [] == b + "  ";
  }

  lemma ExampleKeepWithoutMinute(b: string, minute: string)
    requires b == "Bitcoin" && minute == "minute"
    ensures RemoveFirst(b + "  ", minute) == b + "  "
  {
    RemoveFirstSkips(b + "  ", [], minute);
    assert b + "  " + [] == b + "  ";
  }

  lemma ExampleTrim(b: string)
    requires b == "Bitcoin"
    ensures Trim(b + "  ") == b
  {
    var s := b + "  ";
    assert TrimStart(s) == s;
    assert |s| == 9 && s[8] == ' ' && s[..8] == b + " ";
    assert TrimEnd(s) == TrimEnd(b + " ");
    assert (b + " ")[..7] == b;
    assert TrimEnd(b + " ") == TrimEnd(b);
    assert b[6] == 'n';
    assert TrimEnd(b) == b;
  }

  lemma ExampleTopic(ws: seq<string>)
    requires ws == ["Track", "Bitcoin", "every", "hour"]
    ensures ExtractTopic(ws, 0) == "Bitcoin"
  {
    var b, every, hour := ws[1], ws[2], ws[3];
    var s := Join(ws[1..], " ");
    assert s == b + " " + every + " " + hour by {
      assert ws[1..] == [b, every, hour];
      assert Join([hour], " ") == hour;
      assert Join([every, hour], " ") == every + " " + hour;
    }
    ExampleDropEvery(s, b, every, hour);
    ExampleDropHour(b, hour);
    ExampleKeepWithoutMinute(b, "minute");
    ExampleTrim(b);
  }

  /** The worked example: "Track Bitcoin every hour" tracks "Bitcoin" hourly. */
  lemma MockTracksBitcoin(m: string)
    requires m == "Track Bitcoin every hour"
    ensures MockParseIntent(m).topic == Some("Bitcoin")
    ensures MockParseIntent(m).frequency == Some(Hourly)
    ensures MockParseIntent(m).confirmation == Some(TrackerConfirmation("Bitcoin"))
  {
    var ws := ["Track", "Bitcoin", "every", "hour"];
    ExampleWords(m, ws);
    ExampleKeyword(m, ws);
    ExampleTopic(ws);
  }

  /** A keyword inside the lower-cased message lies inside one word. */
  lemma KeywordStartsFirstWord(m: string, k: string)
    requires ' ' !in k
    requires IsPrefix(k, ToLower(m))
    requires m != [] && m[0] != ' '
    ensures IsPrefix(k, ToLower(Split(m, ' ')[0]))
    decreases |m|
  {
    var rest := Split(m[1..], ' ');
    assert Split(m, ' ')[0] == [m[0]] + rest[0];
    assert ToLower(m)[1..] == ToLower(m[1..]);
    var w := [m[0]] + rest[0];
    assert ToLower(w) == [LowerChar(m[0])] + ToLower(rest[0]);
    if |k| > 1 {
      assert k[1] in k;
      assert LowerChar(m[1]) == k[1];
      assert m[1..][0] == m[1];
      assert IsPrefix(k[1..], ToLower(m[1..]));
      assert forall c :: c in k[1..] ==> c in k;
      KeywordStartsFirstWord(m[1..], k[1..]);
      assert k == [k[0]] + k[1..];
    }
  }

  lemma LowerTail(m: string)
    requires m != []
    ensures ToLower(m)[1..] == ToLower(m[1..])
  {
  }

  /** The index of a word of `Split(m, ' ')` whose lower-cased form contains `k`. */
  lemma {:induction false} KeywordInSomeWord(m: string, k: string) returns (j: nat)
    requires ' ' !in k && k != []
    requires Contains(ToLower(m), k)
    ensures j < |Split(m, ' ')| && Contains(ToLower(Split(m, ' ')[j]), k)
    decreases |m|
  {
    if m == [] {
      NotContainsLonger(ToLower(m), k);
      assert false;
    }
    var words := Split(m, ' ');
    var rest := Split(m[1..], ' ');
    LowerTail(m);
    assert k[0] in k;
    if m[0] == ' ' {
      assert !IsPrefix(k, ToLower(m));
      var i := KeywordInSomeWord(m[1..], k);
      assert words == [""] + rest;
      j := i + 1;
      assert words[j] == rest[i];
    } else if IsPrefix(k, ToLower(m)) {
      KeywordStartsFirstWord(m, k);
      j := 0;
    } else {
      var i := KeywordInSomeWord(m[1..], k);
      assert words == [[m[0]] + rest[0]] + rest[1..];
      j := i;
      if i == 0 {
        LowerTail(words[0]);
        assert words[0][1..] == rest[0];
      } else {
        assert words[j] == rest[i];
      }
    }
  }

  /** The keyword test on the whole message guarantees a keyword word: findIndex never gives -1 there. */
  lemma KeywordWordFound(message: string)
    requires MentionsKeyword(ToLower(message))
    ensures KeywordIndex(Split(message, ' ')) != -1
  {
    var words := Split(message, ' ');
    var l := ToLower(message);
    var k := if Contains(l, "track") then "track"
      else if Contains(l, "monitor") then "monitor"
      else if Contains(l, "watch") then "watch"
      else "follow";
    var j := KeywordInSomeWord(message, k);
    assert MentionsKeyword(ToLower(words[j]));
  }

  // ---------------------------------------------------------------------
  // Offline analyser

  const SentimentChoices: seq<string> := ["Positive", "Neutral", "Negative"]

  const SummaryLead: string := "Recent analyst reports regarding **"
  const SummaryTail: string :=
    "** highlight increased activity and interest. Key market indicators suggest a potential shift in momentum."

  function MockSummary(topic: string): (r: string)
    ensures Contains(r, topic) && r != ""
  {
    ContainsInfix(SummaryLead, topic, SummaryTail);
    SummaryLead + topic + SummaryTail
  }

  /** The five insight templates, each with the topic filled in. */
  function MockInsights(topic: string): (r: seq<string>)
    ensures |r| == 5
    ensures forall k :: 0 <= k < |r| ==> Contains(r[k], topic)
  {
    ContainsInfix("Market data shows a significant uptrend for ", topic, " due to recent global events.");
    ContainsInfix("Public sentiment around ", topic, " is mixed, with rising concerns over regulatory changes.");
    ContainsInfix("The technology sector is rallying behind new advancements in ", topic, ".");
    ContainsInfix("Supply chain disruptions are causing minor delays, impacting ", topic, " availability.");
    ContainsInfix("Analysts predict a volatile week for ", topic, " as earnings reports approach.");
    [ "Market data shows a significant uptrend for " + topic + " due to recent global events.",
      "Public sentiment around " + topic + " is mixed, with rising concerns over regulatory changes.",
      "The technology sector is rallying behind new advancements in " + topic + ".",
      "Supply chain disruptions are causing minor delays, impacting " + topic + " availability.",
      "Analysts predict a volatile week for " + topic + " as earnings reports approach." ]
  }

  /** The drawn sentiment: one of the three the offline analyser knows. */
  function MockSentiment(d: SentimentDraw): (r: string)
    ensures r in {"Positive", "Neutral", "Negative"} && r in SentimentChoices
  {
    assert SentimentChoices[d] in SentimentChoices;
    SentimentChoices[d]
  }

  /** The drawn insight: one of the five templates, filled in with the topic. */
  function MockInsight(topic: string, d: InsightDraw): (r: string)
    ensures r in MockInsights(topic)
    ensures Contains(r, topic)
  {
    var insights := MockInsights(topic);
    assert insights[d] in insights;
    insights[d]
  }

  /** `mockAnalyzeContent`: a drawn sentiment, a drawn insight and the fixed summary, all naming the topic. */
  function MockAnalyzeContent(topic: string, draws: Draws): (r: AnalysisReply)
    ensures r.sentiment.Some? && r.sentiment.value in {"Positive", "Neutral", "Negative"}
    ensures r.insight.Some? && r.insight.value in MockInsights(topic) && Contains(r.insight.value, topic)
    ensures r.summary.Some? && Contains(r.summary.value, topic) && r.summary.value != ""
  {
    AnalysisReply(
      Some(MockSummary(topic)),
      Some(MockSentiment(draws.sentiment)),
      Some(MockInsight(topic, draws.insight)))
  }

  // ---------------------------------------------------------------------
  // Dispatch

  /** `parseIntent`; `None` is a vendor reply that parsed to `null`. */
  function ParseIntent(cfg: AiConfig, message: string, o: IntentOracle): (r: Option<IntentReply>)
    ensures ProviderOf(cfg) == Offline ==> r == Some(MockParseIntent(message))
    ensures r.None? ==> ProviderOf(cfg) != Offline
    ensures ProviderOf(cfg) == OpenAI && o.openai(message).Replied? && o.decode(o.openai(message).text).Object? ==>
      r == Some(o.decode(o.openai(message).text).value)
    ensures ProviderOf(cfg) == Gemini && Cleaned(o.gemini(message)).Replied? && o.decode(Cleaned(o.gemini(message)).text).Object? ==>
      r == Some(o.decode(Cleaned(o.gemini(message)).text).value)
  {
    match ProviderOf(cfg)
    case OpenAI => Settle(o.openai(message), o.decode, MockParseIntent(message))
    case Gemini => Settle(Cleaned(o.gemini(message)), o.decode, MockParseIntent(message))
    case Offline => Some(MockParseIntent(message))
  }

  /** The prompt content sent to OpenAI: the first 2000 characters of the news text. */
  function OpenAIRequest(text: string, topic: string): (q: AnalysisRequest)
    ensures q.topic == topic && IsPrefix(q.content, text)
    ensures |q.content| <= OpenAIInputLimit
    ensures |text| <= OpenAIInputLimit ==> q.content == text
  {
    AnalysisRequest(topic, Take(text, OpenAIInputLimit))
  }

  /** The prompt content sent to Gemini: the first 4000 characters of the news text. */
  function GeminiRequest(text: string, topic: string): (q: AnalysisRequest)
    ensures q.topic == topic && IsPrefix(q.content, text)
    ensures |q.content| <= GeminiInputLimit
    ensures |text| <= GeminiInputLimit ==> q.content == text
  {
    AnalysisRequest(topic, Take(text, GeminiInputLimit))
  }

  /** `analyzeContent`; `None` is a vendor reply that parsed to `null`. */
  function AnalyzeContent(cfg: AiConfig, text: string, topic: string, o: AnalysisOracle): (r: Option<AnalysisReply>)
    ensures ProviderOf(cfg) == Offline ==> r == Some(MockAnalyzeContent(topic, o.draws))
    ensures r.None? ==> ProviderOf(cfg) != Offline
    ensures var c := o.openai(OpenAIRequest(text, topic));
      ProviderOf(cfg) == OpenAI && c.Replied? && o.decode(c.text).Object? ==> r == Some(o.decode(c.text).value)
    ensures var c := Cleaned(o.gemini(GeminiRequest(text, topic)));
      ProviderOf(cfg) == Gemini && c.Replied? && o.decode(c.text).Object? ==> r == Some(o.decode(c.text).value)
  {
    var fallback := MockAnalyzeContent(topic, o.draws);
    match ProviderOf(cfg)
    case OpenAI => Settle(o.openai(OpenAIRequest(text, topic)), o.decode, fallback)
    case Gemini => Settle(Cleaned(o.gemini(GeminiRequest(text, topic))), o.decode, fallback)
    case Offline => Some(fallback)
  }

  /** With neither key set, both entry points give the offline answer. */
  lemma NoKeysMeansOffline(cfg: AiConfig, message: string, io: IntentOracle, text: string, topic: string, ao: AnalysisOracle)
    requires !Truthy(cfg.openaiKey) && !Truthy(cfg.geminiKey)
    ensures ParseIntent(cfg, message, io) == Some(MockParseIntent(message))
    ensures AnalyzeContent(cfg, text, topic, ao) == Some(MockAnalyzeContent(topic, ao.draws))
  {
  }

  /** An OpenAI key wins: the Gemini key and Gemini's answers make no difference. */
  lemma OpenAIKeyTakesPrecedence(cfg: AiConfig, gemini: Option<string>, message: string, io: IntentOracle,
                                 g: string -> Call, text: string, topic: string, ao: AnalysisOracle,
                                 h: AnalysisRequest -> Call)
    requires Truthy(cfg.openaiKey)
    ensures ParseIntent(cfg, message, io) == ParseIntent(cfg.(geminiKey := gemini), message, io.(gemini := g))
    ensures AnalyzeContent(cfg, text, topic, ao) == AnalyzeContent(cfg.(geminiKey := gemini), text, topic, ao.(gemini := h))
  {
  }

  /** A vendor exception or an unparsable reply gives the offline answer for the same message. */
  lemma IntentFailureFallsBack(cfg: AiConfig, message: string, o: IntentOracle)
    requires || (ProviderOf(cfg) == OpenAI && Fails(o.openai(message), o.decode))
             || (ProviderOf(cfg) == Gemini && Fails(Cleaned(o.gemini(message)), o.decode))
    ensures ParseIntent(cfg, message, o) == Some(MockParseIntent(message))
  {
  }

  /** A vendor exception or an unparsable reply gives the offline analysis for the same topic. */
  lemma AnalysisFailureFallsBack(cfg: AiConfig, text: string, topic: string, o: AnalysisOracle)
    requires || (ProviderOf(cfg) == OpenAI && Fails(o.openai(OpenAIRequest(text, topic)), o.decode))
             || (ProviderOf(cfg) == Gemini && Fails(Cleaned(o.gemini(GeminiRequest(text, topic))), o.decode))
    ensures AnalyzeContent(cfg, text, topic, o) == Some(MockAnalyzeContent(topic, o.draws))
  {
  }

  /** A vendor sees only the first 2000 (OpenAI) or 4000 (Gemini) characters of the text. */
  lemma AnalysisSeesOnlyPrefix(cfg: AiConfig, text1: string, text2: string, topic: string, o: AnalysisOracle)
    requires ProviderOf(cfg) == OpenAI ==> Take(text1, OpenAIInputLimit) == Take(text2, OpenAIInputLimit)
    requires ProviderOf(cfg) == Gemini ==> Take(text1, GeminiInputLimit) == Take(text2, GeminiInputLimit)
    ensures AnalyzeContent(cfg, text1, topic, o) == AnalyzeContent(cfg, text2, topic, o)
  {
  }
}
