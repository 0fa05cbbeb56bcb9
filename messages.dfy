/**
 * The error messages of the browser-side extractor and the translation of a
 * caught error into the message the user sees
 * (src/services/geminiService.js:70-82 and 180-195).
 */
module Messages {
  import opened Text

  const NotConfiguredMessage := "Gemini API key is not configured. Please add VITE_GEMINI_API_KEY to your .env file."
  const InvalidKeyMessage := "Invalid Gemini API key. Please check your API key."
  const BusyMessage := "Gemini AI is currently busy. Please try again in a moment."
  const AnalysisFailedMessage := "Failed to analyze image. Please try again."
  const ParseFailedMessage := "Failed to parse AI response. Please try generating again."
  const InvalidFormatMessage := "Invalid recipe format received from AI"
  const GenerationFailedMessage := "Failed to generate recipe. Please try again."

  /** The messages image analysis can fail with. */
  const AnalysisMessages: set<string> :=
    {NotConfiguredMessage, InvalidKeyMessage, BusyMessage, AnalysisFailedMessage}

  /** The error an analysis failure with message `m` is reported as: an
      invalid key first, then an unavailable or overloaded service, then the
      generic message. A missing message is the empty text. */
  function TranslateAnalysisError(m: string): (r: string)
    ensures r in AnalysisMessages - {NotConfiguredMessage}
    ensures Contains(m, "API_KEY_INVALID") ==> r == InvalidKeyMessage
    ensures !Contains(m, "API_KEY_INVALID") && (Contains(m, "503") || Contains(m, "overloaded")) ==>
      r == BusyMessage
    ensures !Contains(m, "API_KEY_INVALID") && !Contains(m, "503") && !Contains(m, "overloaded") ==>
      r == AnalysisFailedMessage
  {
    if Contains(m, "API_KEY_INVALID") then InvalidKeyMessage
    else if Contains(m, "503") || Contains(m, "overloaded") then BusyMessage
    else AnalysisFailedMessage
  }

  /** The error a generation failure with message `m` is reported as: one of
      the fixed messages in the order an invalid key, an unavailable or
      overloaded service, a JSON parse error; otherwise the original message,
      or the generic one when that is empty. It is never empty. */
  function TranslateGenerationError(m: string): (r: string)
    ensures r != ""
    ensures r in {InvalidKeyMessage, BusyMessage, ParseFailedMessage, GenerationFailedMessage} || r == m
    ensures Contains(m, "API_KEY_INVALID") ==> r == InvalidKeyMessage
    ensures !Contains(m, "API_KEY_INVALID") && (Contains(m, "503") || Contains(m, "overloaded")) ==>
      r == BusyMessage
    ensures (!Contains(m, "API_KEY_INVALID") && !Contains(m, "503") && !Contains(m, "overloaded") &&
             Contains(m, "JSON")) ==> r == ParseFailedMessage
    ensures (!Contains(m, "API_KEY_INVALID") && !Contains(m, "503") && !Contains(m, "overloaded") &&
             !Contains(m, "JSON")) ==> r == Shown(m, GenerationFailedMessage)
  {
    if Contains(m, "API_KEY_INVALID") then InvalidKeyMessage
    else if Contains(m, "503") || Contains(m, "overloaded") then BusyMessage
    else if Contains(m, "JSON") then ParseFailedMessage
    else if m != "" then m
    else GenerationFailedMessage
  }

  /** The keywords the translation looks for are absent from the
      invalid-format message: it has no '_', no '5' and no 'J'. */
  lemma InvalidFormatNotInvalidKey()
    ensures !Contains(InvalidFormatMessage, "API_KEY_INVALID")
  {
    NotContainsWithout(InvalidFormatMessage, "API_KEY_INVALID", 3);
  }

  lemma InvalidFormatNotUnavailable()
    ensures !Contains(InvalidFormatMessage, "503")
  {
    NotContainsWithout(InvalidFormatMessage, "503", 0);
  }

  lemma InvalidFormatNotJson()
    ensures !Contains(InvalidFormatMessage, "JSON")
  {
    NotContainsWithout(InvalidFormatMessage, "JSON", 0);
  }

  /** "overloaded" is absent too: every 'o' of the message is followed by 'r'
      or 'm', never by 'v'. */
  lemma InvalidFormatNotOverloaded()
    ensures !Contains(InvalidFormatMessage, "overloaded")
  {
    NotContainsWithoutPair(InvalidFormatMessage, "overloaded");
  }

  /** The message thrown when no object is found is passed on unchanged. */
  lemma InvalidFormatSurvivesTranslation()
    ensures TranslateGenerationError(InvalidFormatMessage) == InvalidFormatMessage
  {
    InvalidFormatNotInvalidKey();
    InvalidFormatNotUnavailable();
    InvalidFormatNotJson();
    InvalidFormatNotOverloaded();
  }

  /** `err.message || fallback`: the caught error's message, or the
      component's own text when the message is missing or empty. */
  function Shown(message: string, fallback: string): (r: string)
    ensures message != "" ==> r == message
    ensures message == "" ==> r == fallback
  {
    if message != "" then message else fallback
  }
}
