/** The push receiver: the Flask handler of `POST /wazuh-alert`. A request
    with a JSON content type is analysed and triaged, and always answered 200
    with the analysis text; any other request is answered 400 and nothing is
    sent to Ollama. */
module Receiver {
  import opened Wrappers
  import opened Triage
  import opened Inference

  /** An inbound request: whether Flask recognises it as JSON
      (`request.is_json`), and the alert it carries, serialized. */
  datatype Request = Request(isJson: bool, alertJson: string)

  /** The HTTP status code and the JSON object returned by `jsonify`. */
  datatype Response = Response(code: nat, body: map<string, string>)

  /** What handling one request amounts to: the response, the call made to
      Ollama (if any), and the verdict the triage computed (if any). */
  datatype Handled = Handled(response: Response, call: Option<GenerateRequest>, triage: Option<Verdict>)

  const NotJsonResponse := Response(400, map["status" := "error", "message" := "Request must be JSON"])

  /** `receive_alert`, given the environment's `OLLAMA_HOST_URL` and the way
      the call to Ollama would end. */
  function Receive(hostEnv: Option<string>, req: Request, o: Outcome): (h: Handled)
    ensures !req.isJson ==> h == Handled(NotJsonResponse, None, None)
    ensures req.isJson ==>
      && h.response.code == 200
      && h.response.body.Keys == {"status", "ollama_analysis"}
      && h.response.body["status"] == "success"
      && h.response.body["ollama_analysis"] == AnalyzeConfig(o).text
    ensures req.isJson ==> h.call == Some(ConfigRequest(hostEnv, req.alertJson))
    ensures req.isJson ==> h.triage == Some(ClassifyConfig(h.response.body["ollama_analysis"]))
  {
    if req.isJson then
      var analysis := AnalyzeConfig(o).text;
      var verdict := ClassifyConfig(analysis);
      Handled(
        Response(200, map["status" := "success", "ollama_analysis" := analysis]),
        Some(ConfigRequest(hostEnv, req.alertJson)),
        Some(verdict))
    else
      Handled(NotJsonResponse, None, None)
  }

  /** The analysis text a client reads back from a response, if it is a
      success response. */
  function AnalysisOf(r: Response): (a: Option<string>)
    ensures a.Some? <==> r.code == 200 && "status" in r.body && r.body["status"] == "success" && "ollama_analysis" in r.body
  {
    if r.code == 200 && "status" in r.body && r.body["status"] == "success" && "ollama_analysis" in r.body then
      Some(r.body["ollama_analysis"])
    else
      None
  }

  /** A non-JSON request is refused the same way whatever it carries and
      however Ollama would have answered: no call is made, so nothing about
      the model can reach the response. */
  lemma NonJsonNeverAnalysed(hostEnv1: Option<string>, hostEnv2: Option<string>, a1: string, a2: string, o1: Outcome, o2: Outcome)
    ensures Receive(hostEnv1, Request(false, a1), o1) == Receive(hostEnv2, Request(false, a2), o2)
    ensures AnalysisOf(Receive(hostEnv1, Request(false, a1), o1).response).None?
  {
  }

  /** A JSON request is answered with success and the analysis text exactly
      as `analyze_alert_with_ollama` returned it, whatever the verdict and
      even when that text is an error message: a client cannot tell a failed
      analysis from a real one by the status. */
  lemma JsonAlwaysSucceeds(hostEnv: Option<string>, alertJson: string, o: Outcome)
    ensures AnalysisOf(Receive(hostEnv, Request(true, alertJson), o).response) == Some(AnalyzeConfig(o).text)
    ensures Receive(hostEnv, Request(true, alertJson), o).response.code == 200
  {
  }

  /** The receiver triages exactly as the configured analyzer does, so a
      timeout or an undecodable reply is logged with no action. */
  lemma ReceiverFailuresLogNoAction(hostEnv: Option<string>, alertJson: string, o: Outcome)
    requires o.TimedOut? || o.Undecodable? || o == Replied(None)
    ensures Receive(hostEnv, Request(true, alertJson), o).triage == Some(NoAction)
  {
    FixedTextsTriggerNothing(o);
  }
}
