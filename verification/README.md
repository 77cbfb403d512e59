# Wazuh–Ollama alert triage, modelled in Dafny

The repository bridges the Wazuh security monitor and a local Ollama
language-model server. Each script takes one Wazuh alert, asks the model
(`deepseek-r1`) for an analysis with a fixed prompt, and then picks an action
by searching the model's free text for keywords. There are three copies of
that pipeline:

- the **configured analyzer** (`config/ollama-wazuh-integration/ollama_wazuh_analyzer.py`),
  run by Wazuh's active response on one alert read from stdin;
- the **push receiver** (`config/ollama-wazuh-integration/alert_receiver_api.py`),
  a Flask handler of `POST /wazuh-alert`;
- the **root analyzer** (`ollama_wazuh_analyzer.py`), another stdin script.

The model covers the decisions these scripts make:

- the two **keyword triage rules**, as total functions from text to a
  `Verdict` (`Escalate`, `Review`, `NoAction`);
- the **prompt** built around the serialized alert, and the outbound
  `/api/generate` request;
- the **text** that `analyze_alert_with_ollama` hands back for each way the
  HTTP call can end, including the fixed fallback and error strings;
- the receiver's **response** decision;
- the **output** each analyzer prints, read line by line.

Modules, leaf first:

- `Wrappers` holds `Option`.
- `Text` holds ASCII case folding, substring search and splitting text into
  lines. It also defines `Mentions`, an independent case-insensitive notion
  of "the text contains the marker". The rules' contracts are stated in terms
  of `Mentions`.
- `Triage` holds the two rules.
- `FixedTexts` holds the fallback and error strings.
- `PrintedLines` holds the fixed lines the analyzers print.
- `Inference` holds the prompts, the request and the analysis outcomes.
- `Receiver` holds the Flask handler.
- `Analyzers` holds `process_wazuh_alert` of both analyzer scripts.

The model is not executable code. `json.dumps` is replaced by its output:
the prompt builders take the serialized alert as a string. `json.loads` is
replaced by an `Option`: `None` means the input was not JSON. The HTTP call
is replaced by a parameter of type `Outcome`: a reply with or without a
`"response"` field, a timeout, any other request failure, or an undecodable
body. The `OLLAMA_HOST_URL` environment variable is an `Option<string>`
parameter.

What the proofs establish:

- **Configured rule.** It escalates exactly when the text mentions
  "CRITICAL ALERT". It reviews exactly when there is no such mention and the
  text mentions "LOW SEVERITY" or "INFORMATIONAL". In every other case it
  takes no action.
- **Root rule.** It escalates on "critical" or "high severity". Otherwise it
  reviews on "low severity". It has no "informational" marker.
- **Case.** Both rules ignore ASCII case.
- **Priority.** Adding text never lowers a verdict.
- **Refinement.** The root rule escalates everything the configured rule
  escalates. The configured rule reviews everything the root rule reviews.
- **Fixed strings.** Every fixed fallback and error string triggers no action.
- **Error text.** Error text is classified like analysis text. A failed
  request whose message mentions a marker is acted on.
- **Prompt echo.** The configured prompt contains "CRITICAL ALERT" itself,
  so a reply that echoes it escalates.
- **Receiver.** It answers 200 "success" to every JSON request, even when the
  analysis is an error message. It answers 400 to anything else without
  calling the model.
- **Printed output.** Each `print` call writes its argument and a line break,
  and the output is read line by line. The scripts' stdout is captured whole.
  The model defines the verdict the output *announces* by a convention of its
  own: the action named by the last non-empty line, so trailing blank lines
  do not hide it. The root analyzer prints its rule line
  after the analysis, so the last non-empty line of its output always
  announces exactly its rule's verdict. The configured analyzer prints the
  analysis last when its rule does not fire. A reply whose last non-empty
  line is an action line therefore announces that action. A reply that is
  exactly the escalation line gets no action from the rule, yet the output
  ends with the escalation line. Every line of the analysis reaches the
  output, so an action line higher up in a reply is printed word for word
  even when the rule and the announced verdict are both "no action".

Error text goes through the same keyword search as an analysis. A failed
request whose exception message contains a marker is acted on: see
`Inference.FailureTextReachesClassifier` and
`Inference.RootFailureMentioningCriticalEscalates`.

## Model

| member | source | states |
|---|---|---|
| `Text.Upper` | config/ollama-wazuh-integration/ollama_wazuh_analyzer.py:67 | `str.upper()` on ASCII: same length; each character is the same letter up to case; no lower-case letter remains |
| `Text.Lower` | ollama_wazuh_analyzer.py:50 | `str.lower()` on ASCII: same length; each character is the same letter up to case; no upper-case letter remains |
| `Text.UpperUnique` | config/ollama-wazuh-integration/ollama_wazuh_analyzer.py:67 | the upper-cased text is the only string that keeps the letters and has no lower-case letter |
| `Text.FoldIffMatches` | config/ollama-wazuh-integration/ollama_wazuh_analyzer.py:67-71 | two texts fold to the same upper (or lower) text exactly when they match up to case |
| `Text.Find` | config/ollama-wazuh-integration/ollama_wazuh_analyzer.py:67 | a naive left-to-right scan agrees with `Contains`, the model of Python's `in`: it returns true exactly when the substring occurs |
| `Text.JoinSplitLines` | config/ollama-wazuh-integration/ollama_wazuh_analyzer.py:62 | splitting a text at its line breaks loses nothing: joining the lines gives the text back |
| `Text.SplitLinesHaveNoBreaks` | config/ollama-wazuh-integration/ollama_wazuh_analyzer.py:62 | no line that splitting produces contains a line break |
| `Text.SplitAtBreak` | config/ollama-wazuh-integration/ollama_wazuh_analyzer.py:62 | the lines of a text around a line break are the lines before it followed by the lines after it |
| `Text.ContainsFoldedIffMentions` | config/ollama-wazuh-integration/ollama_wazuh_analyzer.py:67-71 | searching the folded text for a folded marker is exactly a case-insensitive search for the marker |
| `Triage.ClassifyConfig` | config/ollama-wazuh-integration/ollama_wazuh_analyzer.py:67-72 | Escalate iff "CRITICAL ALERT" is mentioned; Review iff not, and "LOW SEVERITY" or "INFORMATIONAL" is; NoAction iff none is |
| `Triage.ClassifyRoot` | ollama_wazuh_analyzer.py:50-55 | Escalate iff "critical" or "high severity" is mentioned; Review iff neither is and "low severity" is; NoAction iff none is |
| `Triage.ClassifyCaseInsensitive` | config/ollama-wazuh-integration/ollama_wazuh_analyzer.py:67-71 | texts equal up to ASCII case get the same verdict under both rules |
| `Triage.ClassifyIgnoresFolding` | config/ollama-wazuh-integration/ollama_wazuh_analyzer.py:67-71 | upper- or lower-casing the text first never changes either rule's verdict |
| `Triage.ClassifyMonotone` | config/ollama-wazuh-integration/ollama_wazuh_analyzer.py:67-72 | text added before or after never lowers the verdict; an escalation marker wins over any review marker |
| `Triage.ConfigEscalationIsRootEscalation` | ollama_wazuh_analyzer.py:50 | whatever the configured rule escalates, the root rule escalates too |
| `Triage.RootReviewIsConfigReview` | ollama_wazuh_analyzer.py:54 | whatever the root rule sends to review, the configured rule sends to review too |
| `Triage.InformationalOnlyInConfig` | ollama_wazuh_analyzer.py:50-55 | "informational" is reviewed by the configured rule but gets no action from the root rule |
| `Triage.RootCriticalIsSubstring` | ollama_wazuh_analyzer.py:50 | "not critical" and "noncritical" escalate under the root rule; the configured rule ignores "not critical" |
| `Triage.HighSeverityOnlyInRoot` | ollama_wazuh_analyzer.py:50 | "high severity" escalates under the root rule only |
| `Inference.ConfigPrompt` | config/ollama-wazuh-integration/ollama_wazuh_analyzer.py:14-24 | the prompt holds the serialized alert verbatim right after the fixed instructions |
| `Inference.RootPrompt` | ollama_wazuh_analyzer.py:11-20 | the root prompt holds the serialized alert verbatim right after its instructions |
| `Inference.PromptRoundTrip` | config/ollama-wazuh-integration/alert_receiver_api.py:18-28 | the serialized alert is a substring of either prompt and is read back exactly from between its fixed parts |
| `Inference.EchoedConfigPromptEscalates` | config/ollama-wazuh-integration/ollama_wazuh_analyzer.py:17 | the configured prompt itself escalates under both rules, whatever the alert |
| `Inference.ConfigUrl` | config/ollama-wazuh-integration/ollama_wazuh_analyzer.py:10 | the endpoint is exactly the host followed by `/api/generate`: it starts with `OLLAMA_HOST_URL` when set, ends with the path, and has the length of both together; unset, it is the root analyzer's fixed URL |
| `Inference.ConfigRequest` | config/ollama-wazuh-integration/ollama_wazuh_analyzer.py:26-34 | a non-streamed `deepseek-r1` request with a 120-second timeout, sent to `ConfigUrl` of the environment, whose prompt gives back the alert |
| `Inference.RootRequest` | ollama_wazuh_analyzer.py:22-30 | the fixed endpoint, `deepseek-r1`, non-streamed, and no timeout |
| `Inference.AnalyzeConfig` | config/ollama-wazuh-integration/ollama_wazuh_analyzer.py:33-46 | a diagnostic line exactly when the call failed, with the fixed stderr text of each failure kind (the request error's message after a fixed prefix); every failure text opens with "Error: " and the fallback does not; a reply's "response" is passed on unchanged, so a reply can look like a failure |
| `Inference.AnalyzeRoot` | ollama_wazuh_analyzer.py:29-36 | nothing exactly when an undecodable body escapes; a diagnostic line exactly when the call failed, the fixed prefix followed by the request error's message; any request failure, timeouts included, gives "Error: " text carrying the message |
| `Inference.NoAnalysisTextTriggersNothing` | config/ollama-wazuh-integration/ollama_wazuh_analyzer.py:37 | "No analysis provided by Ollama." gets no action |
| `Inference.TimedOutTextTriggersNothing` | config/ollama-wazuh-integration/ollama_wazuh_analyzer.py:40 | "Error: Ollama analysis timed out." gets no action |
| `Inference.InvalidResponseTextTriggersNothing` | config/ollama-wazuh-integration/ollama_wazuh_analyzer.py:46 | "Error: Invalid response from Ollama." gets no action |
| `Inference.NoResponseTextTriggersNothing` | ollama_wazuh_analyzer.py:33 | "No response from Ollama." gets no action under the root rule |
| `Inference.FixedTextsTriggerNothing` | config/ollama-wazuh-integration/alert_receiver_api.py:41-50 | every outcome except a reply with a "response" field or a failed request gets no action |
| `Inference.FailureTextReachesClassifier` | config/ollama-wazuh-integration/ollama_wazuh_analyzer.py:41-43 | a failed request's text is triaged at least as urgently as its exception message, under either rule |
| `Inference.RootFailureMentioningCriticalEscalates` | ollama_wazuh_analyzer.py:34-36 | a root-analyzer failure whose message mentions "critical" escalates |
| `Receiver.Receive` | config/ollama-wazuh-integration/alert_receiver_api.py:53-71 | JSON: 200 with exactly `status` "success" and the analysis, one model call, triaged by the configured rule; otherwise: 400 "Request must be JSON", no call, no triage |
| `Receiver.NonJsonNeverAnalysed` | config/ollama-wazuh-integration/alert_receiver_api.py:70-71 | a non-JSON request's handling depends on neither its payload nor the model's answer, and carries no analysis |
| `Receiver.JsonAlwaysSucceeds` | config/ollama-wazuh-integration/alert_receiver_api.py:59-69 | a JSON request gets back exactly the analysis text with success, including error texts |
| `Receiver.ReceiverFailuresLogNoAction` | config/ollama-wazuh-integration/alert_receiver_api.py:63-67 | a timeout, an undecodable reply or a reply without "response" is triaged as no action |
| `Analyzers.OutputLinesOfText` | config/ollama-wazuh-integration/ollama_wazuh_analyzer.py:62-72 | the output lines are exactly the text the `print` calls write, split at its line breaks |
| `Analyzers.PrintedTextLines` | ollama_wazuh_analyzer.py:41-55 | the printed text splits into the output lines followed by the empty rest after the final line break |
| `Analyzers.ProcessConfig` | config/ollama-wazuh-integration/ollama_wazuh_analyzer.py:49-77 | invalid input: one stderr line and no model call; otherwise one call, the heading and analysis printed first, an action line exactly when the rule fires, and it is the escalation line for an escalation and the review line otherwise; stderr stays empty after a reply and holds the fixed timeout, request-error or undecoding line on each kind of failure |
| `Analyzers.ConfigOutputAnnouncesFiring` | config/ollama-wazuh-integration/ollama_wazuh_analyzer.py:62-72 | when the configured rule fires, the last non-empty line of output announces its verdict |
| `Analyzers.ConfigOutputEchoesLastLine` | config/ollama-wazuh-integration/ollama_wazuh_analyzer.py:62-72 | when the rule does not fire, the output announces whatever the analysis's own last non-empty line announces |
| `Analyzers.ConfigOutputAnnouncesVerdict` | config/ollama-wazuh-integration/ollama_wazuh_analyzer.py:62-72 | both cases together: the rule's verdict when it fires, otherwise the analysis's last non-empty line |
| `Analyzers.ConfigOutputFaithful` | config/ollama-wazuh-integration/ollama_wazuh_analyzer.py:62-72 | for every analysis whose last non-empty line is not an action line, the output announces exactly the rule's verdict under the last-line convention; action lines higher up in the analysis are not excluded |
| `Analyzers.ConfigEscalateLineTriggersNothing` | config/ollama-wazuh-integration/ollama_wazuh_analyzer.py:67-68 | the configured escalation line mentions none of the configured rule's markers |
| `Analyzers.ConfigReplyForgesEscalation` | config/ollama-wazuh-integration/ollama_wazuh_analyzer.py:62-72 | a reply that is exactly the escalation line gets no action from the rule, yet the output announces an escalation |
| `Analyzers.ConfigAnalysisLinesReachOutput` | config/ollama-wazuh-integration/ollama_wazuh_analyzer.py:62 | every line of the analysis is a line of the output, whatever the rule decides |
| `Analyzers.ConfigReplyBuriesEscalation` | config/ollama-wazuh-integration/ollama_wazuh_analyzer.py:62-72 | a reply with the escalation line above a last line "." gets no action from the rule and the output announces none, yet the escalation line is in the output word for word |
| `Analyzers.ProcessRoot` | ollama_wazuh_analyzer.py:38-60 | invalid input: one stderr line and no call; otherwise the received line first; unless the reply was undecodable, the banner, the analysis and the rule follow, an action line exactly when the rule fires, and it is the escalation line for an escalation and the review line otherwise; stderr stays empty after a reply and holds the fixed prefix and the request error's message on a failure; an undecodable reply gives the invalid-input stderr line and nothing after the received line |
| `Analyzers.RootOutputAnnouncesVerdict` | ollama_wazuh_analyzer.py:44-55 | the rule line follows the analysis, so the last non-empty line of output announces exactly the root rule's verdict, whatever the analysis says |
| `Analyzers.RootBlamesWazuhForBadReply` | ollama_wazuh_analyzer.py:57-58 | an undecodable model reply is reported with the invalid-alert line, and nothing is printed after the received alert |

## Left out

- `automation/alert_processor.py` is not part of this model. It builds an index query from a constant and runs `curl` through a shell, which is I/O and shell plumbing.
- HTTP calls, Flask routing and app start-up, logging, the `/tmp` debug file and reading stdin are I/O. Their effects appear only as the `Outcome` parameter, the `Handled` record and the printed lines.
- `json.dumps` and `json.loads` are library calls. Their results are parameters: the serialized alert as a string, and an `Option` for a parse that may fail.
- Case folding covers ASCII letters only. Python's Unicode `upper()`/`lower()` differ on other characters: "ß" becomes "SS", and the dotless "ı" upper-cases to "I".
- The model does not say whether the language model follows the prompt's keyword convention. That is outside the code.
- A `"response"` field that is not a string is left out; in the model the field is always a string. Calling `.upper()` or `.lower()` on it raises. In the analyzers, the generic `except Exception` handlers print their "unexpected error" line (configured analyzer lines 76-77, root analyzer lines 59-60). `receive_alert` has no such handler, so `.upper()` at alert_receiver_api.py line 63 raises out of it and Flask answers 500, not the 200 of `Receiver.Receive`.
- A 2xx reply whose JSON body is not an object is left out. `result.get` (configured analyzer line 37, receiver line 41, root analyzer line 33) raises `AttributeError`, which none of the `except` clauses of `analyze_alert_with_ollama` catches. The analyzers then print their "unexpected error" line, and the receiver answers 500. In the model a decodable reply always has an optional `"response"` field.
- A request that has a JSON content type but a malformed body is left out. Flask's `get_json` answers it with its own 400 response, and that code is not visible here.
- The exception classes follow the `except` clauses as written: a body that is not JSON is an outcome separate from a `RequestException`. From version 2.27 of `requests` on, that decode error is also a `RequestException`. In that case the earlier clause would catch it, and both scripts would return their request-failure text instead.
- The root analyzer sets no timeout. A timeout outcome there is treated as the `RequestException` it is.
- Analyzers.ConfigOutputFaithful: "announced" is the model's reading of the last non-empty output line, not a fact about Wazuh, which captures the whole of stdout. An action line higher up in a multi-line reply still appears in the output (`Analyzers.ConfigReplyBuriesEscalation`), and the lemma says nothing about that case.
- Inference.FailureTextReachesClassifier: states only that the failure text's verdict is at least as urgent as its message's. The exact equality (the fixed prefix cannot complete a marker) is not proved.
