/** The exchange with the Ollama server in `analyze_alert_with_ollama`: the
    prompt built from the serialized alert, the outbound `/api/generate`
    request, and the text each outcome of that request hands back to the
    caller. Error outcomes come back as plain text on the same channel as a
    real analysis, which is what the triage rules then read.

    `json.dumps` is not part of this model: prompts take its output, the
    serialized alert, as a string. The HTTP call itself is not modelled
    either; its possible outcomes are the `Outcome` datatype. */
module Inference {
  import opened Wrappers
  import opened Text
  import opened Triage
  import opened FixedTexts

  // ---------------------------------------------------------------- prompts

  /** The template text before and after the serialized alert, in the
      configured analyzer and the receiver (identical in both). Its
      instructions quote the escalation marker verbatim. */
  const ConfigPromptHead := ConfigInstructionsOpening + CriticalAlert + ConfigInstructionsClosing
  const ConfigInstructionsOpening :=
    "\n    Analyze the following security alert. Provide a concise summary, potential impact, and recommended actions."
    + "\n    Act as a highly experienced SOC analyst. Focus on practical, actionable advice for a security team."
    + "\n    If the alert is critical, explicitly state '"
  const ConfigInstructionsClosing :=
    "' and suggest immediate remediation steps."
    + "\n    If it's informational or low severity, suggest monitoring or minor adjustments."
    + "\n\n    Alert Details:\n    "
  const ConfigPromptTail := "\n\n    Analysis and Recommendations:\n    "

  /** The template text of the root analyzer. */
  const RootPromptHead :=
    "\n    Analyze the following security alert and provide a concise summary, potential impact, and recommended actions."
    + "\n    Behave as a SOC analyst and use your knowledge base to provide the best and most accurate recommendations for the alert"
    + "\n    If possible provide remediation steps if not then recommend next steps for SOC."
    + "\n\n    Alert:\n    "
  const RootPromptTail := "\n\n    Analysis:\n    "

  /** The text between a fixed head and tail, if `p` has that shape. */
  function Between(p: string, head: string, tail: string): (r: Option<string>)
    ensures r.Some? <==> |head| + |tail| <= |p| && p[..|head|] == head && p[|p| - |tail|..] == tail
    ensures r.Some? ==> head + r.value + tail == p
  {
    if |head| + |tail| <= |p| && p[..|head|] == head && p[|p| - |tail|..] == tail then
      var middle := p[|head|..|p| - |tail|];
      assert head + middle + tail == p[..|head|] + p[|head|..|p| - |tail|] + p[|p| - |tail|..];
      Some(middle)
    else
      None
  }

  /** The prompt carries the serialized alert verbatim, between the fixed
      parts of the template. */
  function ConfigPrompt(alertJson: string): (p: string)
    ensures OccursAt(p, alertJson, |ConfigPromptHead|)
    ensures |p| == |ConfigPromptHead| + |alertJson| + |ConfigPromptTail|
  {
    var p := ConfigPromptHead + alertJson + ConfigPromptTail;
    assert p[|ConfigPromptHead|..|ConfigPromptHead| + |alertJson|] == alertJson;
    p
  }

  function RootPrompt(alertJson: string): (p: string)
    ensures OccursAt(p, alertJson, |RootPromptHead|)
    ensures |p| == |RootPromptHead| + |alertJson| + |RootPromptTail|
  {
    var p := RootPromptHead + alertJson + RootPromptTail;
    assert p[|RootPromptHead|..|RootPromptHead| + |alertJson|] == alertJson;
    p
  }

  /** The serialized alert can be read back out of either prompt, so no two
      alerts share a prompt. */
  lemma PromptRoundTrip(alertJson: string)
    ensures Contains(ConfigPrompt(alertJson), alertJson)
    ensures Contains(RootPrompt(alertJson), alertJson)
    ensures Between(ConfigPrompt(alertJson), ConfigPromptHead, ConfigPromptTail) == Some(alertJson)
    ensures Between(RootPrompt(alertJson), RootPromptHead, RootPromptTail) == Some(alertJson)
  {
    FramedRoundTrip(ConfigPromptHead, alertJson, ConfigPromptTail);
    FramedRoundTrip(RootPromptHead, alertJson, RootPromptTail);
  }

  lemma FramedRoundTrip(head: string, middle: string, tail: string)
    ensures Between(head + middle + tail, head, tail) == Some(middle)
  {
    var p := head + middle + tail;
    assert p[..|head|] == head;
    assert p[|p| - |tail|..] == tail;
    assert p[|head|..|p| - |tail|] == middle;
  }

  /** The configured template spells out the escalation marker itself, so a
      reply that merely echoes the prompt is escalated by both rules,
      whatever the alert. */
  lemma EchoedConfigPromptEscalates(alertJson: string)
    ensures ClassifyConfig(ConfigPrompt(alertJson)) == Escalate
    ensures ClassifyRoot(ConfigPrompt(alertJson)) == Escalate
  {
    var rest := ConfigInstructionsClosing + alertJson + ConfigPromptTail;
    assert ConfigPrompt(alertJson) == ConfigInstructionsOpening + CriticalAlert + rest;
    FoldIffMatches(CriticalAlert, CriticalAlert);
    assert OccursIgnoringCaseAt(CriticalAlert, CriticalAlert, 0);
    MentionsExtend(ConfigInstructionsOpening, CriticalAlert, rest, CriticalAlert);
    ConfigEscalationIsRootEscalation(ConfigPrompt(alertJson));
  }

  // ------------------------------------------------------- outbound request

  const DefaultHost := "http://ollama:11434"
  const GeneratePath := "/api/generate"
  const RootUrl := "http://ollama:11434/api/generate"
  const ModelName := "deepseek-r1"
  const ConfigTimeoutSeconds := 120

  /** The JSON body and transport settings of the POST to `/api/generate`. */
  datatype GenerateRequest = GenerateRequest(
    url: string,
    model: string,
    prompt: string,
    stream: bool,
    timeoutSeconds: Option<nat>)

  /** The endpoint of the configured analyzer and the receiver: the
      `OLLAMA_HOST_URL` environment variable, when set, replaces the default
      host; the path is always `/api/generate`. */
  function ConfigUrl(hostEnv: Option<string>): (url: string)
    ensures |url| >= |GeneratePath| && url[|url| - |GeneratePath|..] == GeneratePath
    ensures hostEnv.Some? ==> |hostEnv.value| <= |url| && url[..|hostEnv.value|] == hostEnv.value
    ensures hostEnv.None? ==> url == RootUrl
    ensures |url| == |hostEnv.GetOr(DefaultHost)| + |GeneratePath|
  {
    var host := hostEnv.GetOr(DefaultHost);
    var url := host + GeneratePath;
    assert url[|url| - |GeneratePath|..] == GeneratePath;
    assert url[..|host|] == host;
    url
  }

  /** The request of the configured analyzer and the receiver: one
      non-streamed generation from "deepseek-r1", waited on for 120 seconds. */
  function ConfigRequest(hostEnv: Option<string>, alertJson: string): (r: GenerateRequest)
    ensures r.model == ModelName && !r.stream && r.timeoutSeconds == Some(ConfigTimeoutSeconds)
    ensures Between(r.prompt, ConfigPromptHead, ConfigPromptTail) == Some(alertJson)
    ensures r.url == ConfigUrl(hostEnv)
    ensures hostEnv.None? ==> r.url == RootUrl
  {
    PromptRoundTrip(alertJson);
    GenerateRequest(ConfigUrl(hostEnv), ModelName, ConfigPrompt(alertJson), false, Some(ConfigTimeoutSeconds))
  }

  /** The request of the root analyzer: the fixed endpoint, and no timeout,
      so the call may wait forever. */
  function RootRequest(alertJson: string): (r: GenerateRequest)
    ensures r.url == RootUrl && r.model == ModelName && !r.stream && r.timeoutSeconds.None?
    ensures Between(r.prompt, RootPromptHead, RootPromptTail) == Some(alertJson)
  {
    PromptRoundTrip(alertJson);
    GenerateRequest(RootUrl, ModelName, RootPrompt(alertJson), false, None)
  }

  // --------------------------------------------------------------- outcomes

  /** How the call to `/api/generate` ended, one constructor per branch the
      source distinguishes. `detail` is the text of the raised exception. */
  datatype Outcome =
    | Replied(response: Option<string>)  // 2xx with a JSON body; its "response" field, if any
    | TimedOut(detail: string)           // `requests.exceptions.Timeout`
    | RequestFailed(detail: string)      // any other `RequestException`: connection, DNS, non-2xx status
    | Undecodable(detail: string)        // the body is not JSON (`json.JSONDecodeError`)

  /** What `analyze_alert_with_ollama` returns, and the one diagnostic line the
      analyzer scripts write to stderr on the way. The receiver logs the same
      events with its own wording, which is not modelled. */
  datatype Analysis = Analysis(text: string, diagnostic: Option<string>)

  /** `analyze_alert_with_ollama` of the configured analyzer and the receiver.
      The diagnostic lines are the configured analyzer's stderr lines. */
  function AnalyzeConfig(o: Outcome): (a: Analysis)
    ensures a.diagnostic.None? <==> o.Replied?
    ensures !o.Replied? ==> IsErrorText(a.text)
    ensures o == Replied(None) ==> !IsErrorText(a.text)
    ensures o.Replied? ==> a.text == o.response.GetOr(NoAnalysisText)
    ensures o.RequestFailed? ==> a.text == FailedPrefix + o.detail
    ensures o.TimedOut? ==> a.text == TimedOutText
    ensures o.Undecodable? ==> a.text == InvalidResponseText
    ensures o.TimedOut? ==> a.diagnostic == Some(TimedOutDiagnostic)
    ensures o.RequestFailed? ==> a.diagnostic == Some(FailedDiagnosticPrefix + o.detail)
    ensures o.Undecodable? ==> a.diagnostic == Some(UndecodableDiagnostic)
  {
    FallbacksAreNotErrorTexts();
    match o
    case Replied(response) => Analysis(response.GetOr(NoAnalysisText), None)
    case TimedOut(_) => Analysis(TimedOutText, Some(TimedOutDiagnostic))
    case RequestFailed(e) => Analysis(FailedPrefix + e, Some(FailedDiagnosticPrefix + e))
    case Undecodable(_) => Analysis(InvalidResponseText, Some(UndecodableDiagnostic))
  }

  /** `analyze_alert_with_ollama` of the root analyzer: `None` when the call
      raises out of it. That script catches only `RequestException` (which
      includes timeouts); an undecodable body escapes to its caller. */
  function AnalyzeRoot(o: Outcome): (a: Option<Analysis>)
    ensures a.None? <==> o.Undecodable?
    ensures a.Some? ==> (a.value.diagnostic.None? <==> o.Replied?)
    ensures a.Some? && !o.Replied? ==> IsErrorText(a.value.text)
    ensures o == Replied(None) ==> !IsErrorText(a.value.text)
    ensures o.Replied? ==> a == Some(Analysis(o.response.GetOr(NoResponseText), None))
    ensures o.TimedOut? || o.RequestFailed? ==> a.Some? && a.value.text == RootFailedPrefix + o.detail
    ensures o.TimedOut? || o.RequestFailed? ==> a.Some? && a.value.diagnostic == Some(RootFailedDiagnosticPrefix + o.detail)
  {
    FallbacksAreNotErrorTexts();
    match o
    case Replied(response) => Some(Analysis(response.GetOr(NoResponseText), None))
    case TimedOut(e) => Some(Analysis(RootFailedPrefix + e, Some(RootFailedDiagnosticPrefix + e)))
    case RequestFailed(e) => Some(Analysis(RootFailedPrefix + e, Some(RootFailedDiagnosticPrefix + e)))
    case Undecodable(_) => None
  }

  /** The configured analyzer's fixed fallback and error texts carry none of
      its rule's markers: each lacks, in both cases, one letter of every
      marker. */
  lemma NoAnalysisTextTriggersNothing()
    ensures ClassifyConfig(NoAnalysisText) == NoAction
  {
    NoAnalysisTextLetters();
    ConfigQuietWithout(NoAnalysisText, 'C', 'W', 'F');
  }

  lemma TimedOutTextTriggersNothing()
    ensures ClassifyConfig(TimedOutText) == NoAction
  {
    TimedOutTextLetters();
    ConfigQuietWithout(TimedOutText, 'C', 'W', 'F');
  }

  lemma InvalidResponseTextTriggersNothing()
    ensures ClassifyConfig(InvalidResponseText) == NoAction
  {
    InvalidResponseTextLetters();
    ConfigQuietWithout(InvalidResponseText, 'C', 'W', 'T');
  }

  /** The root analyzer's fallback carries none of its rule's markers. */
  lemma NoResponseTextTriggersNothing()
    ensures ClassifyRoot(NoResponseText) == NoAction
  {
    NoResponseTextLetters();
    RootQuietWithout(NoResponseText, 'c', 'h', 'w');
  }

  /** Hence every outcome other than a reply with a "response" field or a
      failed request triggers no action, under the rule its script applies. */
  lemma FixedTextsTriggerNothing(o: Outcome)
    requires !o.RequestFailed? && !(o.Replied? && o.response.Some?)
    ensures ClassifyConfig(AnalyzeConfig(o).text) == NoAction
    ensures o.Replied? ==> ClassifyRoot(AnalyzeRoot(o).value.text) == NoAction
  {
    NoAnalysisTextTriggersNothing();
    TimedOutTextTriggersNothing();
    InvalidResponseTextTriggersNothing();
    NoResponseTextTriggersNothing();
  }

  /** A failed request is not told apart from an analysis: its text carries
      the exception message into the classifier, so the verdict is at least
      as urgent as the message's own. */
  lemma FailureTextReachesClassifier(o: Outcome)
    requires o.RequestFailed? || o.TimedOut?
    ensures o.RequestFailed? ==> Rank(ClassifyConfig(o.detail)) <= Rank(ClassifyConfig(AnalyzeConfig(o).text))
    ensures Rank(ClassifyRoot(o.detail)) <= Rank(ClassifyRoot(AnalyzeRoot(o).value.text))
  {
    ClassifyMonotone(FailedPrefix, o.detail, "");
    assert FailedPrefix + o.detail + "" == FailedPrefix + o.detail;
    ClassifyMonotone(RootFailedPrefix, o.detail, "");
    assert RootFailedPrefix + o.detail + "" == RootFailedPrefix + o.detail;
  }

  /** In particular, a root-analyzer failure whose message says "critical"
      (say, the name of a proxy host, or the reason phrase of an HTTP error
      status) is escalated. */
  lemma RootFailureMentioningCriticalEscalates(e: string)
    requires Mentions(e, Critical)
    ensures ClassifyRoot(AnalyzeRoot(RequestFailed(e)).value.text) == Escalate
  {
    FailureTextReachesClassifier(RequestFailed(e));
  }
}
