/** The fixed texts `analyze_alert_with_ollama` returns in place of a model
    analysis: the fallback for a reply without a "response" field, and the
    error texts. Kept apart from the rest of the model so that facts about
    their letters are checked in a small context. */
module FixedTexts {
  import opened Text

  /** Every error text opens with this tag; the fallbacks do not. */
  const ErrorTag := "Error: "

  // The configured analyzer and the receiver.
  const NoAnalysisText := "No analysis provided by Ollama."
  const TimedOutText := ErrorTag + "Ollama analysis timed out."
  const FailedPrefix := ErrorTag + "Failed to get analysis from Ollama. Details: "
  const InvalidResponseText := ErrorTag + "Invalid response from Ollama."

  // The root analyzer.
  const NoResponseText := "No response from Ollama."
  const RootFailedPrefix := ErrorTag + "Could not get analysis from Ollama. "

  // The diagnostic lines the configured analyzer writes to stderr on a
  // failure, and the root analyzer's.
  const TimedOutDiagnostic := "Error: Ollama API request timed out."
  const FailedDiagnosticPrefix := "Error communicating with Ollama API: "
  const UndecodableDiagnostic := "Error: Could not decode JSON response from Ollama."
  const RootFailedDiagnosticPrefix := "Error communicating with Ollama: "

  /** The text opens with the error tag. */
  predicate IsErrorText(t: string) {
    |ErrorTag| <= |t| && t[..|ErrorTag|] == ErrorTag
  }

  /** The fallbacks for a reply without a "response" field do not look like
      errors. */
  lemma FallbacksAreNotErrorTexts()
    ensures !IsErrorText(NoAnalysisText) && !IsErrorText(NoResponseText)
  {
    assert NoAnalysisText[0] != ErrorTag[0];
    assert NoResponseText[0] != ErrorTag[0];
  }

  // Letters absent from the fixed texts, in both cases.
  lemma NoAnalysisTextLetters()
    ensures 'C' !in NoAnalysisText && 'c' !in NoAnalysisText && 'W' !in NoAnalysisText && 'w' !in NoAnalysisText && 'F' !in NoAnalysisText && 'f' !in NoAnalysisText
  {
    assert Avoids(NoAnalysisText, "CcWwFf");
  }

  lemma TimedOutTextLetters()
    ensures 'C' !in TimedOutText && 'c' !in TimedOutText && 'W' !in TimedOutText && 'w' !in TimedOutText && 'F' !in TimedOutText && 'f' !in TimedOutText
  {
    assert Avoids(ErrorTag, "CcWwFf");
    assert Avoids("Ollama analysis timed out.", "CcWwFf");
    AvoidsConcat(ErrorTag, "Ollama analysis timed out.", "CcWwFf");
  }

  lemma InvalidResponseTextLetters()
    ensures 'C' !in InvalidResponseText && 'c' !in InvalidResponseText && 'W' !in InvalidResponseText && 'w' !in InvalidResponseText && 'T' !in InvalidResponseText && 't' !in InvalidResponseText
  {
    assert Avoids(ErrorTag, "CcWwTt");
    assert Avoids("Invalid response from Ollama.", "CcWwTt");
    AvoidsConcat(ErrorTag, "Invalid response from Ollama.", "CcWwTt");
  }

  lemma NoResponseTextLetters()
    ensures 'C' !in NoResponseText && 'c' !in NoResponseText && 'H' !in NoResponseText && 'h' !in NoResponseText && 'W' !in NoResponseText && 'w' !in NoResponseText
  {
    assert Avoids(NoResponseText, "CcHhWw");
  }
}
