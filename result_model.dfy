/**
 * The AnalysisResult record (server/models/AnalysisResult.js): required
 * references and text, the sentiment enumeration, and the defaults the schema
 * fills in when a document is built.
 */
module ResultModel {
  import opened Common
  import opened JsString

  datatype Sentiment = Positive | Negative | Neutral | Unknown

  /** The string the schema's `enum` lists for each sentiment. */
  function SentimentName(s: Sentiment): string
  {
    match s
    case Positive => "Positive"
    case Negative => "Negative"
    case Neutral => "Neutral"
    case Unknown => "Unknown"
  }

  /** Reads a sentiment string; anything outside the enumeration is refused, not coerced. */
  function ParseSentiment(s: string): (r: Option<Sentiment>)
    ensures r.Some? ==> SentimentName(r.value) == s
    ensures r.None? <==> s !in {"Positive", "Negative", "Neutral", "Unknown"}
  {
    if s == "Positive" then Some(Positive)
    else if s == "Negative" then Some(Negative)
    else if s == "Neutral" then Some(Neutral)
    else if s == "Unknown" then Some(Unknown)
    else None
  }

  /** Every member of the enumeration reads back as itself. */
  lemma ParseSentimentName(x: Sentiment)
    ensures ParseSentiment(SentimentName(x)) == Some(x)
  {
  }

  /** A stored result; timestamps are milliseconds. */
  datatype AnalysisResult = AnalysisResult(
    taskId: nat,
    userId: nat,
    topic: string,
    summary: string,
    sentiment: Sentiment,
    insight: Option<string>,
    sourceCount: int,
    timestamp: int)

  /** The fields handed to `new AnalysisResult({...})`; `None` is an absent field. */
  datatype ResultDraft = ResultDraft(
    taskId: Option<nat>,
    userId: Option<nat>,
    topic: Option<string>,
    summary: Option<string>,
    sentiment: Option<string>,
    insight: Option<string>,
    sourceCount: Option<int>)

  /** The paths whose validator can fail. */
  datatype Field = TaskIdField | UserIdField | TopicField | SummaryField | SentimentField

  /** The validators that fail on a draft, all reported together as the store does. */
  function Failures(d: ResultDraft): (r: set<Field>)
    ensures TaskIdField in r <==> d.taskId.None?
    ensures UserIdField in r <==> d.userId.None?
    ensures TopicField in r <==> !Truthy(d.topic)
    ensures SummaryField in r <==> !Truthy(d.summary)
    ensures SentimentField in r <==> d.sentiment.Some? && ParseSentiment(d.sentiment.value).None?
    ensures r == {} <==>
      d.taskId.Some? && d.userId.Some? && Truthy(d.topic) && Truthy(d.summary)
      && (d.sentiment.Some? ==> ParseSentiment(d.sentiment.value).Some?)
  {
    (if d.taskId.None? then {TaskIdField} else {})
    + (if d.userId.None? then {UserIdField} else {})
    + (if !Truthy(d.topic) then {TopicField} else {})
    + (if !Truthy(d.summary) then {SummaryField} else {})
    + (if d.sentiment.Some? && ParseSentiment(d.sentiment.value).None? then {SentimentField} else {})
  }

  /**
   * Validation on save. A required string that is absent or "" fails; a
   * sentiment outside the enumeration fails; an absent sentiment becomes
   * Unknown, an absent source count 0, and the timestamp is `now`.
   */
  function Validate(d: ResultDraft, now: int): (r: Result<AnalysisResult, set<Field>>)
    ensures r.Ok? <==>
      d.taskId.Some? && d.userId.Some? && Truthy(d.topic) && Truthy(d.summary)
      && (d.sentiment.None? || ParseSentiment(d.sentiment.value).Some?)
    ensures r.Err? ==> r.error != {}
    ensures r.Err? ==> (UserIdField in r.error <==> d.userId.None?)
    ensures r.Err? ==> (TopicField in r.error <==> !Truthy(d.topic))
    ensures r.Err? ==> (SummaryField in r.error <==> !Truthy(d.summary))
    ensures r.Err? ==> (TaskIdField in r.error <==> d.taskId.None?)
    ensures r.Err? ==> (SentimentField in r.error <==> d.sentiment.Some? && ParseSentiment(d.sentiment.value).None?)
    ensures r.Ok? ==> var v := r.value;
      && Some(v.taskId) == d.taskId && Some(v.userId) == d.userId
      && Some(v.topic) == d.topic && Some(v.summary) == d.summary
      && v.insight == d.insight
      && v.sentiment == (if d.sentiment.None? then Unknown else ParseSentiment(d.sentiment.value).value)
      && v.sourceCount == (if d.sourceCount.None? then 0 else d.sourceCount.value)
      && v.timestamp == now
  {
    var failures := Failures(d);
    if failures != {} then Err(failures)
    else
      Ok(AnalysisResult(
        d.taskId.value, d.userId.value, d.topic.value, d.summary.value,
        if d.sentiment.None? then Unknown else ParseSentiment(d.sentiment.value).value,
        d.insight,
        if d.sourceCount.None? then 0 else d.sourceCount.value,
        now))
  }
}
