/** The fixed lines the two analyzer scripts print to stdout, and the facts
    about their characters the output proofs need. Kept apart from the rest
    of the model so that those facts are checked in a small context. */
module PrintedLines {
  import opened Text

  // Each line is written as a tag and three pieces of a few words, so that
  // facts about its characters are checked piece by piece.

  // The configured analyzer.
  /** Both action lines of the configured analyzer open with this tag. */
  const ConfigActionTag := "ACTION: "
  const ConfigEscalate1 := "IMMEDIATE ESCALATION "
  const ConfigEscalate2 := "REQUIRED. Sending "
  const ConfigEscalate3 := "high-priority notification."
  const ConfigEscalateLine := ConfigActionTag + ConfigEscalate1 + ConfigEscalate2 + ConfigEscalate3
  const ConfigReview1 := "Logged for review. "
  const ConfigReview2 := "No immediate "
  const ConfigReview3 := "action required."
  const ConfigReviewLine := ConfigActionTag + ConfigReview1 + ConfigReview2 + ConfigReview3
  /** The line printed above the analysis, in the same `print` call. */
  const ConfigAnalysisHeading := "Ollama Analysis:"

  // The root analyzer.
  /** Both action lines of the root analyzer open with this tag. */
  const RootActionTag := "Action: "
  const RootEscalate1 := "This is a critical alert "
  const RootEscalate2 := "based on Ollama's analysis. "
  const RootEscalate3 := "Consider immediate escalation."
  const RootEscalateLine := RootActionTag + RootEscalate1 + RootEscalate2 + RootEscalate3
  const RootReview1 := "Low severity, "
  const RootReview2 := "consider logging "
  const RootReview3 := "for review."
  const RootReviewLine := RootActionTag + RootReview1 + RootReview2 + RootReview3
  const RootReceivedHeader := "Received Wazuh Alert: "
  /** Printed before the analysis: an empty line, then the banner itself. */
  const RootBanner := "\n--- Ollama Analysis ---"
  /** Printed after the analysis. */
  const RootRule := "-----------------------"

  /** Avoidance of single characters carries over to a line of four pieces. */
  lemma AvoidsPieces(a: string, b: string, c: string, d: string, letters: string)
    requires Avoids(a, letters) && Avoids(b, letters) && Avoids(c, letters) && Avoids(d, letters)
    ensures Avoids(a + b + c + d, letters)
  {
    AvoidsConcat(a, b, letters);
    AvoidsConcat(a + b, c, letters);
    AvoidsConcat(a + b + c, d, letters);
  }

  /** Likewise for pairs, when every piece but the last ends with a space. */
  lemma AvoidsPairPieces(a: string, b: string, c: string, d: string, first: string, second: string)
    requires AvoidsPair(a, first, second) && AvoidsPair(b, first, second)
    requires AvoidsPair(c, first, second) && AvoidsPair(d, first, second)
    requires ' ' !in first
    requires |a| > 0 && a[|a| - 1] == ' ' && |b| > 0 && b[|b| - 1] == ' ' && |c| > 0 && c[|c| - 1] == ' '
    ensures AvoidsPair(a + b + c + d, first, second)
  {
    AvoidsPairConcat(a, b, first, second);
    assert (a + b)[|a + b| - 1] == b[|b| - 1];
    AvoidsPairConcat(a + b, c, first, second);
    assert (a + b + c)[|a + b + c| - 1] == c[|c| - 1];
    AvoidsPairConcat(a + b + c, d, first, second);
  }

  // Each action line, and the rule printed after the root analysis, is a
  // single line of output.

  lemma ConfigEscalateLineSingle()
    ensures '\n' !in ConfigEscalateLine
  {
    assert Avoids(ConfigActionTag, "\n") && Avoids(ConfigEscalate1, "\n");
    assert Avoids(ConfigEscalate2, "\n") && Avoids(ConfigEscalate3, "\n");
    AvoidsPieces(ConfigActionTag, ConfigEscalate1, ConfigEscalate2, ConfigEscalate3, "\n");
  }

  lemma ConfigReviewLineSingle()
    ensures '\n' !in ConfigReviewLine
  {
    assert Avoids(ConfigActionTag, "\n") && Avoids(ConfigReview1, "\n");
    assert Avoids(ConfigReview2, "\n") && Avoids(ConfigReview3, "\n");
    AvoidsPieces(ConfigActionTag, ConfigReview1, ConfigReview2, ConfigReview3, "\n");
  }

  lemma RootEscalateLineSingle()
    ensures '\n' !in RootEscalateLine
  {
    assert Avoids(RootActionTag, "\n") && Avoids(RootEscalate1, "\n");
    assert Avoids(RootEscalate2, "\n") && Avoids(RootEscalate3, "\n");
    AvoidsPieces(RootActionTag, RootEscalate1, RootEscalate2, RootEscalate3, "\n");
  }

  lemma RootReviewLineSingle()
    ensures '\n' !in RootReviewLine
  {
    assert Avoids(RootActionTag, "\n") && Avoids(RootReview1, "\n");
    assert Avoids(RootReview2, "\n") && Avoids(RootReview3, "\n");
    AvoidsPieces(RootActionTag, RootReview1, RootReview2, RootReview3, "\n");
  }

  lemma RootRuleSingle()
    ensures '\n' !in RootRule
  {
    assert Avoids(RootRule, "\n");
  }

  // The configured escalation line lacks what "LOW SEVERITY", "CRITICAL
  // ALERT" and "INFORMATIONAL" need, in either case: a "w", a "c" followed
  // by "r", and an "n" followed by "f".

  lemma ConfigEscalateLineHasNoW()
    ensures 'W' !in ConfigEscalateLine && 'w' !in ConfigEscalateLine
  {
    assert Avoids(ConfigActionTag, "Ww") && Avoids(ConfigEscalate1, "Ww");
    assert Avoids(ConfigEscalate2, "Ww") && Avoids(ConfigEscalate3, "Ww");
    AvoidsPieces(ConfigActionTag, ConfigEscalate1, ConfigEscalate2, ConfigEscalate3, "Ww");
  }

  lemma ConfigEscalateHeadHasNoCR()
    ensures AvoidsPair(ConfigActionTag, "Cc", "Rr") && AvoidsPair(ConfigEscalate1, "Cc", "Rr")
  {
    assert AvoidsPair(ConfigActionTag, "Cc", "Rr");
    assert AvoidsPair(ConfigEscalate1, "Cc", "Rr");
  }

  lemma ConfigEscalateTailHasNoCR()
    ensures AvoidsPair(ConfigEscalate2, "Cc", "Rr") && AvoidsPair(ConfigEscalate3, "Cc", "Rr")
  {
    assert AvoidsPair(ConfigEscalate2, "Cc", "Rr");
    assert AvoidsPair(ConfigEscalate3, "Cc", "Rr");
  }

  lemma ConfigEscalateHeadHasNoNF()
    ensures AvoidsPair(ConfigActionTag, "Nn", "Ff") && AvoidsPair(ConfigEscalate1, "Nn", "Ff")
  {
    assert AvoidsPair(ConfigActionTag, "Nn", "Ff");
    assert AvoidsPair(ConfigEscalate1, "Nn", "Ff");
  }

  lemma ConfigEscalateTailHasNoNF()
    ensures AvoidsPair(ConfigEscalate2, "Nn", "Ff") && AvoidsPair(ConfigEscalate3, "Nn", "Ff")
  {
    assert AvoidsPair(ConfigEscalate2, "Nn", "Ff");
    assert AvoidsPair(ConfigEscalate3, "Nn", "Ff");
  }

  lemma ConfigEscalateLineHasNoCR()
    ensures AvoidsPair(ConfigEscalateLine, "Cc", "Rr")
  {
    ConfigEscalateHeadHasNoCR();
    ConfigEscalateTailHasNoCR();
    AvoidsPairPieces(ConfigActionTag, ConfigEscalate1, ConfigEscalate2, ConfigEscalate3, "Cc", "Rr");
  }

  lemma ConfigEscalateLineHasNoNF()
    ensures AvoidsPair(ConfigEscalateLine, "Nn", "Ff")
  {
    ConfigEscalateHeadHasNoNF();
    ConfigEscalateTailHasNoNF();
    AvoidsPairPieces(ConfigActionTag, ConfigEscalate1, ConfigEscalate2, ConfigEscalate3, "Nn", "Ff");
  }

  /** The two action lines of each analyzer differ right after the tag. */
  lemma ActionLinesDiffer()
    ensures ConfigEscalateLine != ConfigReviewLine && RootEscalateLine != RootReviewLine
  {
    assert ConfigEscalateLine[|ConfigActionTag|] == ConfigEscalate1[0] == 'I';
    assert ConfigReviewLine[|ConfigActionTag|] == ConfigReview1[0] == 'L';
    assert RootEscalateLine[|RootActionTag|] == RootEscalate1[0] == 'T';
    assert RootReviewLine[|RootActionTag|] == RootReview1[0] == 'L';
  }

  /** The rule printed after the root analysis is no action line. */
  lemma RootRuleIsNoActionLine()
    ensures RootRule != RootEscalateLine && RootRule != RootReviewLine
  {
    assert RootRule[0] == '-';
    assert RootEscalateLine[0] == RootActionTag[0] == 'A';
    assert RootReviewLine[0] == RootActionTag[0] == 'A';
  }

  /** The heading printed above the configured analysis is one non-empty
      line and no action line. */
  lemma ConfigHeadingIsNoActionLine()
    ensures '\n' !in ConfigAnalysisHeading && ConfigAnalysisHeading != ""
    ensures ConfigAnalysisHeading != ConfigEscalateLine && ConfigAnalysisHeading != ConfigReviewLine
  {
    assert Avoids(ConfigAnalysisHeading, "\n");
    assert ConfigAnalysisHeading[0] == 'O';
    assert ConfigEscalateLine[0] == ConfigActionTag[0] == 'A';
    assert ConfigReviewLine[0] == ConfigActionTag[0] == 'A';
  }
}
