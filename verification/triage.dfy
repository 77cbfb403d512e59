/** The keyword triage rules that turn the model's free-text analysis into an
    action. The repository carries two variants:
    - the configured analyzer and the push receiver fold the text to upper
      case and look for "CRITICAL ALERT", then "LOW SEVERITY" / "INFORMATIONAL";
    - the root analyzer folds to lower case and looks for "critical" or
      "high severity", then "low severity".
    Each rule is specified by case-insensitive mentions of its markers and
    implemented, like the source, by folding the text and searching it. */
module Triage {
  import opened Text

  /** Escalate: the "immediate escalation" action line; Review: the "logged
      for review" line; NoAction: no action line at all. */
  datatype Verdict = Escalate | Review | NoAction

  const CriticalAlert := "CRITICAL ALERT"
  const LowSeverityUpper := "LOW SEVERITY"
  const Informational := "INFORMATIONAL"

  const Critical := "critical"
  const HighSeverity := "high severity"
  const LowSeverity := "low severity"

  /** The configured rule's markers are already upper case and the root
      rule's already lower case, so folding leaves them alone. */
  lemma MarkersAreFolded()
    ensures Upper(CriticalAlert) == CriticalAlert
    ensures Upper(LowSeverityUpper) == LowSeverityUpper
    ensures Upper(Informational) == Informational
    ensures Lower(Critical) == Critical
    ensures Lower(HighSeverity) == HighSeverity
    ensures Lower(LowSeverity) == LowSeverity
  {
    UpperUnique(CriticalAlert, CriticalAlert);
    UpperUnique(LowSeverityUpper, LowSeverityUpper);
    UpperUnique(Informational, Informational);
    LowerUnique(Critical, Critical);
    LowerUnique(HighSeverity, HighSeverity);
    LowerUnique(LowSeverity, LowSeverity);
  }

  /** The triage rule of the configured analyzer and of the push receiver:
      escalate on "CRITICAL ALERT"; otherwise review on "LOW SEVERITY" or
      "INFORMATIONAL"; otherwise nothing. */
  function ClassifyConfig(analysis: string): (v: Verdict)
    ensures v == Escalate <==> Mentions(analysis, CriticalAlert)
    ensures v == Review <==>
      !Mentions(analysis, CriticalAlert)
      && (Mentions(analysis, LowSeverityUpper) || Mentions(analysis, Informational))
    ensures v == NoAction <==>
      !Mentions(analysis, CriticalAlert)
      && !Mentions(analysis, LowSeverityUpper)
      && !Mentions(analysis, Informational)
  {
    MarkersAreFolded();
    ContainsFoldedIffMentions(analysis, CriticalAlert);
    ContainsFoldedIffMentions(analysis, LowSeverityUpper);
    ContainsFoldedIffMentions(analysis, Informational);
    var upper := Upper(analysis);
    if Contains(upper, CriticalAlert) then Escalate
    else if Contains(upper, LowSeverityUpper) || Contains(upper, Informational) then Review
    else NoAction
  }

  /** The triage rule of the root analyzer: escalate on "critical" or
      "high severity"; otherwise review on "low severity"; otherwise nothing.
      There is no "informational" marker. */
  function ClassifyRoot(analysis: string): (v: Verdict)
    ensures v == Escalate <==> Mentions(analysis, Critical) || Mentions(analysis, HighSeverity)
    ensures v == Review <==>
      !Mentions(analysis, Critical) && !Mentions(analysis, HighSeverity)
      && Mentions(analysis, LowSeverity)
    ensures v == NoAction <==>
      !Mentions(analysis, Critical) && !Mentions(analysis, HighSeverity)
      && !Mentions(analysis, LowSeverity)
  {
    MarkersAreFolded();
    ContainsFoldedIffMentions(analysis, Critical);
    ContainsFoldedIffMentions(analysis, HighSeverity);
    ContainsFoldedIffMentions(analysis, LowSeverity);
    var lower := Lower(analysis);
    if Contains(lower, Critical) || Contains(lower, HighSeverity) then Escalate
    else if Contains(lower, LowSeverity) then Review
    else NoAction
  }

  /** A text that lacks some letter of each configured marker, in both
      cases, triggers no action under the configured rule. */
  lemma ConfigQuietWithout(t: string, c1: char, c2: char, c3: char)
    requires c1 in CriticalAlert && c2 in LowSeverityUpper && c3 in Informational
    requires c1 !in t && LowerChar(c1) !in t
    requires c2 !in t && LowerChar(c2) !in t
    requires c3 !in t && LowerChar(c3) !in t
    ensures ClassifyConfig(t) == NoAction
  {
    MissingCharNotMentioned(t, CriticalAlert, c1);
    MissingCharNotMentioned(t, LowSeverityUpper, c2);
    MissingCharNotMentioned(t, Informational, c3);
  }

  /** Likewise for the root rule, with letters of its three markers. */
  lemma RootQuietWithout(t: string, c1: char, c2: char, c3: char)
    requires c1 in Critical && c2 in HighSeverity && c3 in LowSeverity
    requires c1 !in t && UpperChar(c1) !in t
    requires c2 !in t && UpperChar(c2) !in t
    requires c3 !in t && UpperChar(c3) !in t
    ensures ClassifyRoot(t) == NoAction
  {
    MissingCharNotMentioned(t, Critical, c1);
    MissingCharNotMentioned(t, HighSeverity, c2);
    MissingCharNotMentioned(t, LowSeverity, c3);
  }

  /** Both rules see only the letters of the text, never their case: texts
      that match up to ASCII case get the same verdict. */
  lemma ClassifyCaseInsensitive(s: string, t: string)
    requires MatchesIgnoringCase(s, t)
    ensures ClassifyConfig(s) == ClassifyConfig(t)
    ensures ClassifyRoot(s) == ClassifyRoot(t)
  {
    FoldIffMatches(s, t);
  }

  /** In particular, upper- or lower-casing the analysis first changes nothing. */
  lemma ClassifyIgnoresFolding(s: string)
    ensures ClassifyConfig(Upper(s)) == ClassifyConfig(s) == ClassifyConfig(Lower(s))
    ensures ClassifyRoot(Upper(s)) == ClassifyRoot(s) == ClassifyRoot(Lower(s))
  {
    FoldAbsorbs(s);
  }

  /** Urgency order of the verdicts. */
  function Rank(v: Verdict): nat {
    match v
    case NoAction => 0
    case Review => 1
    case Escalate => 2
  }

  /** Adding text around an analysis never lowers its verdict under either
      rule: a marker once present stays present, and escalation outranks
      review whatever else the text says. */
  lemma ClassifyMonotone(a: string, s: string, b: string)
    ensures Rank(ClassifyConfig(s)) <= Rank(ClassifyConfig(a + s + b))
    ensures Rank(ClassifyRoot(s)) <= Rank(ClassifyRoot(a + s + b))
  {
    var markers := [CriticalAlert, LowSeverityUpper, Informational, Critical, HighSeverity, LowSeverity];
    forall k | 0 <= k < |markers| && Mentions(s, markers[k])
      ensures Mentions(a + s + b, markers[k])
    {
      MentionsExtend(a, s, b, markers[k]);
    }
    assert markers[0] == CriticalAlert && markers[1] == LowSeverityUpper && markers[2] == Informational;
    assert markers[3] == Critical && markers[4] == HighSeverity && markers[5] == LowSeverity;
  }

  /** Every text the configured rule escalates, the root rule escalates too:
      "CRITICAL ALERT" begins with "critical" up to case. */
  lemma ConfigEscalationIsRootEscalation(t: string)
    requires ClassifyConfig(t) == Escalate
    ensures ClassifyRoot(t) == Escalate
  {
    CriticalBeginsCriticalAlert();
    MentionsPrefix(t, CriticalAlert, Critical);
  }

  lemma CriticalBeginsCriticalAlert()
    ensures |Critical| <= |CriticalAlert| && MatchesIgnoringCase(Critical, CriticalAlert[..|Critical|])
  {
    assert CriticalAlert[..|Critical|] == "CRITICAL";
    FoldIffMatches(Critical, "CRITICAL");
  }

  lemma LowSeverityMatchesUpper()
    ensures |LowSeverityUpper| <= |LowSeverity| && MatchesIgnoringCase(LowSeverityUpper, LowSeverity[..|LowSeverityUpper|])
  {
    FoldIffMatches(LowSeverityUpper, LowSeverity);
    assert LowSeverity[..|LowSeverityUpper|] == LowSeverity;
  }

  /** Every text the root rule sends to review, the configured rule sends to
      review too: "low severity" is "LOW SEVERITY" up to case, and a text
      without "critical" cannot hold "CRITICAL ALERT". */
  lemma RootReviewIsConfigReview(t: string)
    requires ClassifyRoot(t) == Review
    ensures ClassifyConfig(t) == Review
  {
    LowSeverityMatchesUpper();
    MentionsPrefix(t, LowSeverity, LowSeverityUpper);
    if ClassifyConfig(t) == Escalate {
      ConfigEscalationIsRootEscalation(t);
    }
  }

  /** Where the two rules part ways: "informational" is reviewed by the
      configured rule only. */
  lemma InformationalOnlyInConfig()
    ensures ClassifyConfig("informational") == Review
    ensures ClassifyRoot("informational") == NoAction
  {
    assert OccursIgnoringCaseAt("informational", Informational, 0);
    MissingCharNotMentioned("informational", CriticalAlert, 'C');
    MissingCharNotMentioned("informational", Critical, 'c');
    MissingCharNotMentioned("informational", HighSeverity, 'h');
    MissingCharNotMentioned("informational", LowSeverity, 'w');
  }

  /** The root rule's bare "critical" is a substring test: it fires on a
      negation and inside a longer word, where the configured rule sees nothing. */
  lemma RootCriticalIsSubstring()
    ensures ClassifyRoot("not critical") == Escalate
    ensures ClassifyRoot("noncritical") == Escalate
    ensures ClassifyConfig("not critical") == NoAction
  {
    assert OccursIgnoringCaseAt("not critical", Critical, 4);
    assert OccursIgnoringCaseAt("noncritical", Critical, 3);
    MissingCharNotMentioned("not critical", CriticalAlert, 'E');
    MissingCharNotMentioned("not critical", LowSeverityUpper, 'W');
    MissingCharNotMentioned("not critical", Informational, 'F');
  }

  /** "high severity" escalates under the root rule only. */
  lemma HighSeverityOnlyInRoot()
    ensures ClassifyRoot("high severity") == Escalate
    ensures ClassifyConfig("high severity") == NoAction
  {
    assert OccursIgnoringCaseAt("high severity", HighSeverity, 0);
    MissingCharNotMentioned("high severity", CriticalAlert, 'C');
    MissingCharNotMentioned("high severity", LowSeverityUpper, 'W');
    MissingCharNotMentioned("high severity", Informational, 'F');
  }
}
