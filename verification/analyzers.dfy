/** `process_wazuh_alert` of the two analyzer scripts run by Wazuh's active
    response: read one alert, analyse it, print the analysis and, if the
    triage rule fires, one action line. A run records the arguments of its
    `print` calls; what a reader of stdout sees is the text those calls write,
    taken line by line. */
module Analyzers {
  import opened Wrappers
  import opened Text
  import opened Triage
  import opened Inference
  import opened PrintedLines
  import opened FixedTexts

  /** The call made to Ollama, if any, and the arguments of the `print` calls
      to stdout and to stderr, in order. */
  datatype Run = Run(call: Option<GenerateRequest>, stdout: seq<string>, stderr: seq<string>)

  function DiagnosticLines(a: Analysis): seq<string> {
    match a.diagnostic
    case Some(line) => [line]
    case None => []
  }

  // ------------------------------------------------------------------ output

  /** The text a sequence of `print` calls writes: each argument followed by a
      line break. */
  function PrintedText(prints: seq<string>): string {
    if |prints| == 0 then ""
    else PrintedText(prints[..|prints| - 1]) + prints[|prints| - 1] + "\n"
  }

  /** The lines a reader sees: every argument split at its own line breaks. */
  function OutputLines(prints: seq<string>): (lines: seq<string>)
    ensures |prints| == 0 <==> |lines| == 0
    ensures |prints| > 0 ==>
      var last := SplitLines(prints[|prints| - 1]);
      lines[|lines| - 1] == last[|last| - 1]
  {
    if |prints| == 0 then []
    else OutputLines(prints[..|prints| - 1]) + SplitLines(prints[|prints| - 1])
  }

  /** The lines are exactly the printed text split at its line breaks, with
      whatever follows the printed text continuing the last line. */
  lemma {:induction false} OutputLinesOfText(prints: seq<string>, rest: string)
    ensures SplitLines(PrintedText(prints) + rest) == OutputLines(prints) + SplitLines(rest)
    decreases |prints|
  {
    if |prints| > 0 {
      var init, p := prints[..|prints| - 1], prints[|prints| - 1];
      assert PrintedText(prints) + rest == PrintedText(init) + (p + "\n" + rest);
      OutputLinesOfText(init, p + "\n" + rest);
      SplitAtBreak(p, rest);
      assert OutputLines(prints) == OutputLines(init) + SplitLines(p);
    } else {
      assert PrintedText(prints) + rest == rest;
    }
  }

  /** Hence the printed text, split at its line breaks, gives the output
      lines and the empty remainder after the final line break. */
  lemma PrintedTextLines(prints: seq<string>)
    ensures SplitLines(PrintedText(prints)) == OutputLines(prints) + [""]
  {
    OutputLinesOfText(prints, "");
    assert PrintedText(prints) + "" == PrintedText(prints);
  }

  /** The last line that is not empty, if any: the end of the output,
      blank lines after it notwithstanding. */
  function LastNonEmpty(lines: seq<string>): (r: Option<string>)
    ensures r.Some? ==> r.value != "" && r.value in lines
    ensures r.None? <==> forall i :: 0 <= i < |lines| ==> lines[i] == ""
  {
    if |lines| == 0 then None
    else if lines[|lines| - 1] != "" then Some(lines[|lines| - 1])
    else LastNonEmpty(lines[..|lines| - 1])
  }

  /** It is the last such line: every line after it is empty. */
  lemma {:induction false} LastNonEmptyIsLast(lines: seq<string>)
    ensures LastNonEmpty(lines).Some? ==>
      exists i :: 0 <= i < |lines| && lines[i] == LastNonEmpty(lines).value
        && forall j :: i < j < |lines| ==> lines[j] == ""
  {
    if |lines| > 0 {
      var n := |lines| - 1;
      if lines[n] != "" {
        assert lines[n] == LastNonEmpty(lines).value;
      } else {
        var init := lines[..n];
        assert LastNonEmpty(lines) == LastNonEmpty(init);
        LastNonEmptyIsLast(init);
        if LastNonEmpty(init).Some? {
          var i :| 0 <= i < |init| && init[i] == LastNonEmpty(init).value
            && forall j :: i < j < |init| ==> init[j] == "";
          forall j | i < j < |lines|
            ensures lines[j] == ""
          {
            if j < n {
              assert lines[j] == init[j];
            }
          }
          assert lines[i] == init[i];
        }
      }
    }
  }

  /** The last non-empty line of two blocks is that of the second block, or
      else that of the first. */
  lemma {:induction false} LastNonEmptyAppend(xs: seq<string>, ys: seq<string>)
    ensures LastNonEmpty(xs + ys) == if LastNonEmpty(ys).Some? then LastNonEmpty(ys) else LastNonEmpty(xs)
    decreases |ys|
  {
    if |ys| == 0 {
      assert xs + ys == xs;
    } else {
      var zs := xs + ys;
      assert zs[|zs| - 1] == ys[|ys| - 1];
      if ys[|ys| - 1] == "" {
        assert zs[..|zs| - 1] == xs + ys[..|ys| - 1];
        LastNonEmptyAppend(xs, ys[..|ys| - 1]);
      }
    }
  }

  /** The verdict the output announces, by this model's convention: the
      action whose line is the last non-empty line, if it is one of the two
      action lines. The scripts' stdout is captured whole, so an action line
      further up stays in the output; the convention does not look at it. */
  function AnnouncedBy(lines: seq<string>, escalateLine: string, reviewLine: string): Verdict {
    match LastNonEmpty(lines)
    case Some(line) =>
      if line == escalateLine then Escalate
      else if line == reviewLine then Review
      else NoAction
    case None => NoAction
  }

  /** A last `print` of a single, non-empty line is the last non-empty line
      of output. */
  lemma LastLineOfOutput(prints: seq<string>, line: string)
    requires |prints| > 0 && prints[|prints| - 1] == line && '\n' !in line && line != ""
    ensures LastNonEmpty(OutputLines(prints)) == Some(line)
  {
    SplitSingleLine(line);
    var lines := OutputLines(prints);
    assert lines[|lines| - 1] == line;
  }

  /** A single `print` produces the lines of its argument. */
  lemma OutputLinesOfOne(x: string)
    ensures OutputLines([x]) == SplitLines(x)
  {
    assert [x][..0] == [];
  }

  /** After a non-empty heading and a line break, the last non-empty line is
      that of the text, or else the heading. */
  lemma LastLineAfterHeading(heading: string, text: string)
    requires '\n' !in heading && heading != ""
    ensures LastNonEmpty(SplitLines(heading + "\n" + text))
         == if LastNonEmpty(SplitLines(text)).Some? then LastNonEmpty(SplitLines(text)) else Some(heading)
  {
    SplitAtBreak(heading, text);
    SplitSingleLine(heading);
    LastNonEmptyAppend([heading], SplitLines(text));
  }

  // ------------------------------------------------------ configured analyzer

  const ConfigInvalidInputLine := "Error: Invalid JSON received from Wazuh (expected alert JSON)."

  function ConfigActionLines(v: Verdict): seq<string> {
    match v
    case Escalate => [ConfigEscalateLine]
    case Review => [ConfigReviewLine]
    case NoAction => []
  }

  /** The configured analyzer on one stdin read: `alertJson` is the alert as
      parsed and re-serialized, or `None` when the input is not JSON. The
      heading and the analysis are written by one `print` call. */
  function ProcessConfig(hostEnv: Option<string>, alertJson: Option<string>, o: Outcome): (run: Run)
    ensures alertJson.None? ==> run == Run(None, [], [ConfigInvalidInputLine])
    ensures alertJson.Some? ==>
      && run.call == Some(ConfigRequest(hostEnv, alertJson.value))
      && 1 <= |run.stdout| <= 2
      && run.stdout[0] == ConfigAnalysisHeading + "\n" + AnalyzeConfig(o).text
      && (|run.stdout| == 2 <==> ClassifyConfig(AnalyzeConfig(o).text) != NoAction)
      && (|run.stdout| == 2 ==>
            run.stdout[1] == (if ClassifyConfig(AnalyzeConfig(o).text) == Escalate then ConfigEscalateLine else ConfigReviewLine))
      && (|run.stderr| == 1 <==> !o.Replied?)
      && (o.Replied? ==> run.stderr == [])
      && (o.TimedOut? ==> run.stderr == [TimedOutDiagnostic])
      && (o.RequestFailed? ==> run.stderr == [FailedDiagnosticPrefix + o.detail])
      && (o.Undecodable? ==> run.stderr == [UndecodableDiagnostic])
  {
    match alertJson
    case None => Run(None, [], [ConfigInvalidInputLine])
    case Some(a) =>
      var analysis := AnalyzeConfig(o);
      Run(Some(ConfigRequest(hostEnv, a)),
          [ConfigAnalysisHeading + "\n" + analysis.text] + ConfigActionLines(ClassifyConfig(analysis.text)),
          DiagnosticLines(analysis))
  }

  /** The action the configured analyzer's output announces. */
  function ConfigAnnounced(lines: seq<string>): Verdict {
    AnnouncedBy(lines, ConfigEscalateLine, ConfigReviewLine)
  }

  /** An action line printed last is announced. */
  lemma ConfigActionAnnounced(first: string, v: Verdict)
    requires v != NoAction
    ensures ConfigAnnounced(OutputLines([first] + ConfigActionLines(v))) == v
  {
    var prints := [first] + ConfigActionLines(v);
    if v == Escalate {
      ConfigEscalateLineSingle();
      LastLineOfOutput(prints, ConfigEscalateLine);
    } else {
      ConfigReviewLineSingle();
      ActionLinesDiffer();
      LastLineOfOutput(prints, ConfigReviewLine);
    }
  }

  /** When the rule fires, the output announces its verdict. */
  lemma ConfigOutputAnnouncesFiring(hostEnv: Option<string>, alertJson: string, o: Outcome)
    requires ClassifyConfig(AnalyzeConfig(o).text) != NoAction
    ensures ConfigAnnounced(OutputLines(ProcessConfig(hostEnv, Some(alertJson), o).stdout))
         == ClassifyConfig(AnalyzeConfig(o).text)
  {
    var text := AnalyzeConfig(o).text;
    var v := ClassifyConfig(text);
    assert ProcessConfig(hostEnv, Some(alertJson), o).stdout == [ConfigAnalysisHeading + "\n" + text] + ConfigActionLines(v);
    ConfigActionAnnounced(ConfigAnalysisHeading + "\n" + text, v);
  }

  /** Printed alone, the heading and an analysis announce what the
      analysis's last non-empty line announces: the heading itself is no
      action line. */
  lemma ConfigAnalysisAnnounced(text: string)
    ensures ConfigAnnounced(OutputLines([ConfigAnalysisHeading + "\n" + text])) == ConfigAnnounced(SplitLines(text))
  {
    ConfigHeadingIsNoActionLine();
    HeadingAnnouncesNothing(ConfigAnalysisHeading, text, ConfigEscalateLine, ConfigReviewLine);
  }

  /** A heading that is no action line leaves the announcement to the text
      printed under it. */
  lemma HeadingAnnouncesNothing(heading: string, text: string, escalateLine: string, reviewLine: string)
    requires '\n' !in heading && heading != ""
    requires heading != escalateLine && heading != reviewLine
    ensures AnnouncedBy(OutputLines([heading + "\n" + text]), escalateLine, reviewLine)
         == AnnouncedBy(SplitLines(text), escalateLine, reviewLine)
  {
    OutputLinesOfOne(heading + "\n" + text);
    LastLineAfterHeading(heading, text);
  }

  /** When the rule does not fire, the last non-empty line of output is that
      of the analysis, so the output announces whatever that line announces. */
  lemma ConfigOutputEchoesLastLine(hostEnv: Option<string>, alertJson: string, o: Outcome)
    requires ClassifyConfig(AnalyzeConfig(o).text) == NoAction
    ensures ConfigAnnounced(OutputLines(ProcessConfig(hostEnv, Some(alertJson), o).stdout))
         == ConfigAnnounced(SplitLines(AnalyzeConfig(o).text))
  {
    var text := AnalyzeConfig(o).text;
    assert ProcessConfig(hostEnv, Some(alertJson), o).stdout == [ConfigAnalysisHeading + "\n" + text];
    ConfigAnalysisAnnounced(text);
  }

  /** Together: the output announces the rule's verdict when the rule fires,
      and otherwise whatever the analysis's own last non-empty line announces. */
  lemma ConfigOutputAnnouncesVerdict(hostEnv: Option<string>, alertJson: string, o: Outcome)
    ensures var text := AnalyzeConfig(o).text;
      var lines := OutputLines(ProcessConfig(hostEnv, Some(alertJson), o).stdout);
      && (ClassifyConfig(text) != NoAction ==> ConfigAnnounced(lines) == ClassifyConfig(text))
      && (ClassifyConfig(text) == NoAction ==> ConfigAnnounced(lines) == ConfigAnnounced(SplitLines(text)))
  {
    if ClassifyConfig(AnalyzeConfig(o).text) != NoAction {
      ConfigOutputAnnouncesFiring(hostEnv, alertJson, o);
    } else {
      ConfigOutputEchoesLastLine(hostEnv, alertJson, o);
    }
  }

  /** So the announced verdict is the rule's verdict for every analysis
      whose last non-empty line is not itself an action line. Action lines
      further up in the analysis are not excluded, and they still reach the
      output (see `ConfigReplyBuriesEscalation`). */
  lemma ConfigOutputFaithful(hostEnv: Option<string>, alertJson: string, o: Outcome)
    requires ConfigAnnounced(SplitLines(AnalyzeConfig(o).text)) == NoAction
    ensures ConfigAnnounced(OutputLines(ProcessConfig(hostEnv, Some(alertJson), o).stdout))
         == ClassifyConfig(AnalyzeConfig(o).text)
  {
    ConfigOutputAnnouncesVerdict(hostEnv, alertJson, o);
  }

  /** Every line of the analysis is a line of the output, whatever the rule
      decides. */
  lemma ConfigAnalysisLinesReachOutput(hostEnv: Option<string>, alertJson: string, o: Outcome)
    ensures var text := AnalyzeConfig(o).text;
      var lines := OutputLines(ProcessConfig(hostEnv, Some(alertJson), o).stdout);
      forall i :: 0 <= i < |SplitLines(text)| ==> SplitLines(text)[i] in lines
  {
    var text := AnalyzeConfig(o).text;
    var more := ConfigActionLines(ClassifyConfig(text));
    assert ProcessConfig(hostEnv, Some(alertJson), o).stdout == [ConfigAnalysisHeading + "\n" + text] + more;
    HeadedLinesReachOutput(ConfigAnalysisHeading, text, more);
  }

  /** The lines of a text printed under a heading are output lines, whatever
      single line follows. */
  lemma HeadedLinesReachOutput(heading: string, text: string, more: seq<string>)
    requires |more| <= 1
    ensures forall i :: 0 <= i < |SplitLines(text)| ==>
      SplitLines(text)[i] in OutputLines([heading + "\n" + text] + more)
  {
    var first := heading + "\n" + text;
    var prints := [first] + more;
    assert prints[..1] == [first];
    OutputLinesOfOne(first);
    SplitAtBreak(heading, text);
    if |more| == 1 {
      assert OutputLines(prints) == OutputLines([first]) + SplitLines(more[0]);
    } else {
      assert prints == [first];
    }
  }

  /** The escalation line carries none of the configured rule's markers. */
  lemma ConfigEscalateLineTriggersNothing()
    ensures ClassifyConfig(ConfigEscalateLine) == NoAction
  {
    ConfigEscalateLineHasNoCR();
    ConfigEscalateLineHasNoW();
    ConfigEscalateLineHasNoNF();
    MissingPairNotMentioned(ConfigEscalateLine, CriticalAlert, 0, "Cc", "Rr");
    MissingCharNotMentioned(ConfigEscalateLine, LowSeverityUpper, 'W');
    MissingPairNotMentioned(ConfigEscalateLine, Informational, 1, "Nn", "Ff");
  }

  /** A reply can forge the escalation: a reply that is the escalation line
      itself gets no action from the rule, yet the output ends with that line. */
  lemma ConfigReplyForgesEscalation(hostEnv: Option<string>, alertJson: string)
    ensures var o := Replied(Some(ConfigEscalateLine));
      && ClassifyConfig(AnalyzeConfig(o).text) == NoAction
      && ConfigAnnounced(OutputLines(ProcessConfig(hostEnv, Some(alertJson), o).stdout)) == Escalate
  {
    var o := Replied(Some(ConfigEscalateLine));
    ConfigEscalateLineTriggersNothing();
    ConfigEscalateLineSingle();
    SplitSingleLine(ConfigEscalateLine);
    ConfigOutputAnnouncesVerdict(hostEnv, alertJson, o);
  }

  /** A reply with the escalation line above a last line "." gets no action
      from the rule, and the output announces none, yet the escalation line
      is printed word for word. */
  lemma ConfigReplyBuriesEscalation(hostEnv: Option<string>, alertJson: string)
    ensures var o := Replied(Some(ConfigEscalateLine + "\n."));
      var lines := OutputLines(ProcessConfig(hostEnv, Some(alertJson), o).stdout);
      && ClassifyConfig(AnalyzeConfig(o).text) == NoAction
      && ConfigAnnounced(lines) == NoAction
      && ConfigEscalateLine in lines
  {
    var o := Replied(Some(ConfigEscalateLine + "\n."));
    var text := ConfigEscalateLine + "\n.";
    assert AnalyzeConfig(o).text == text;
    ReplyBelowEscalationTriggersNothing();
    SplitBelowEscalation();
    var lines := OutputLines(ProcessConfig(hostEnv, Some(alertJson), o).stdout);
    ConfigAnalysisLinesReachOutput(hostEnv, alertJson, o);
    assert SplitLines(text)[0] == ConfigEscalateLine;
    ConfigOutputEchoesLastLine(hostEnv, alertJson, o);
    ActionLinesDiffer();
    assert LastNonEmpty(SplitLines(text)) == Some(".");
  }

  /** The escalation line followed by a line "." mentions no marker. */
  lemma ReplyBelowEscalationTriggersNothing()
    ensures ClassifyConfig(ConfigEscalateLine + "\n.") == NoAction
  {
    var text := ConfigEscalateLine + "\n.";
    var line := ConfigEscalateLine;
    ConfigEscalateLineHasNoCR();
    ConfigEscalateLineHasNoW();
    ConfigEscalateLineHasNoNF();
    assert line[|line| - 1] == ConfigEscalate3[|ConfigEscalate3| - 1] == '.';
    assert AvoidsPair("\n.", "Cc", "Rr") && AvoidsPair("\n.", "Nn", "Ff");
    AvoidsPairConcat(line, "\n.", "Cc", "Rr");
    AvoidsPairConcat(line, "\n.", "Nn", "Ff");
    assert 'W' !in text && 'w' !in text;
    MissingPairNotMentioned(text, CriticalAlert, 0, "Cc", "Rr");
    MissingCharNotMentioned(text, LowSeverityUpper, 'W');
    MissingPairNotMentioned(text, Informational, 1, "Nn", "Ff");
  }

  /** That reply splits into the escalation line and the line ".". */
  lemma SplitBelowEscalation()
    ensures SplitLines(ConfigEscalateLine + "\n.") == [ConfigEscalateLine, "."]
  {
    assert ConfigEscalateLine + "\n." == ConfigEscalateLine + "\n" + ".";
    SplitAtBreak(ConfigEscalateLine, ".");
    ConfigEscalateLineSingle();
    SplitSingleLine(ConfigEscalateLine);
    SplitSingleLine(".");
  }

  // ------------------------------------------------------------ root analyzer

  const RootInvalidInputLine := "Error: Invalid JSON received from Wazuh."

  function RootActionLines(v: Verdict): seq<string> {
    match v
    case Escalate => [RootEscalateLine]
    case Review => [RootReviewLine]
    case NoAction => []
  }

  /** The root analyzer on one stdin read. An undecodable Ollama reply raises
      out of `analyze_alert_with_ollama` and lands in the handler meant for
      invalid alert input. */
  function ProcessRoot(alertJson: Option<string>, o: Outcome): (run: Run)
    ensures alertJson.None? ==> run == Run(None, [], [RootInvalidInputLine])
    ensures alertJson.Some? ==>
      && run.call == Some(RootRequest(alertJson.value))
      && 1 <= |run.stdout|
      && run.stdout[0] == RootReceivedHeader + alertJson.value
    ensures alertJson.Some? && o.Undecodable? ==>
      && run.stdout == [RootReceivedHeader + alertJson.value]
      && run.stderr == [RootInvalidInputLine]
    ensures alertJson.Some? && !o.Undecodable? ==>
      && 4 <= |run.stdout| <= 5
      && run.stdout[1] == RootBanner
      && run.stdout[2] == AnalyzeRoot(o).value.text
      && run.stdout[3] == RootRule
      && (|run.stdout| == 5 <==> ClassifyRoot(AnalyzeRoot(o).value.text) != NoAction)
      && (|run.stdout| == 5 ==>
            run.stdout[4] == (if ClassifyRoot(AnalyzeRoot(o).value.text) == Escalate then RootEscalateLine else RootReviewLine))
      && (|run.stderr| == 1 <==> !o.Replied?)
      && (o.Replied? ==> run.stderr == [])
      && (!o.Replied? ==> run.stderr == [RootFailedDiagnosticPrefix + o.detail])
  {
    match alertJson
    case None => Run(None, [], [RootInvalidInputLine])
    case Some(a) =>
      var received := RootReceivedHeader + a;
      match AnalyzeRoot(o)
      case None => Run(Some(RootRequest(a)), [received], [RootInvalidInputLine])
      case Some(analysis) =>
        Run(Some(RootRequest(a)),
            [received, RootBanner, analysis.text, RootRule] + RootActionLines(ClassifyRoot(analysis.text)),
            DiagnosticLines(analysis))
  }

  /** The action the root analyzer's output announces. */
  function RootAnnounced(lines: seq<string>): Verdict {
    AnnouncedBy(lines, RootEscalateLine, RootReviewLine)
  }

  /** Whatever the analysis, the rule line and any action line after it
      decide what the root output announces. */
  lemma RootVerdictAnnounced(received: string, text: string, v: Verdict)
    ensures RootAnnounced(OutputLines([received, RootBanner, text, RootRule] + RootActionLines(v))) == v
  {
    var prints := [received, RootBanner, text, RootRule] + RootActionLines(v);
    if v == Escalate {
      RootEscalateLineSingle();
      LastLineOfOutput(prints, RootEscalateLine);
    } else if v == Review {
      RootReviewLineSingle();
      ActionLinesDiffer();
      LastLineOfOutput(prints, RootReviewLine);
    } else {
      RootRuleSingle();
      RootRuleIsNoActionLine();
      LastLineOfOutput(prints, RootRule);
    }
  }

  /** The root analyzer prints its rule after the analysis, so its output
      announces exactly its rule's verdict, whatever the analysis says. */
  lemma RootOutputAnnouncesVerdict(alertJson: string, o: Outcome)
    requires !o.Undecodable?
    ensures RootAnnounced(OutputLines(ProcessRoot(Some(alertJson), o).stdout)) == ClassifyRoot(AnalyzeRoot(o).value.text)
  {
    var text := AnalyzeRoot(o).value.text;
    var v := ClassifyRoot(text);
    assert ProcessRoot(Some(alertJson), o).stdout == [RootReceivedHeader + alertJson, RootBanner, text, RootRule] + RootActionLines(v);
    RootVerdictAnnounced(RootReceivedHeader + alertJson, text, v);
  }

  /** An undecodable reply from Ollama is reported with the very line used for
      an alert that is not JSON, and nothing is printed after the alert. */
  lemma RootBlamesWazuhForBadReply(alertJson: string, o: Outcome)
    requires o.Undecodable?
    ensures ProcessRoot(Some(alertJson), o).stderr == ProcessRoot(None, o).stderr
    ensures ProcessRoot(Some(alertJson), o).stdout == [RootReceivedHeader + alertJson]
  {
  }
}
