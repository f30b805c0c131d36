/** A chat message and the ways the handlers rebuild it. The source spreads an object
    and overrides a few keys; here every key is always present, and the keys a fresh
    message does not carry yet (`responseLanguage`, `summaryLanguage`) hold "". */
module Messages {
  import opened Services

  datatype Message = Message(
    text: string,              // what the user typed, untrimmed
    language: string,          // the detected language name
    selectedLanguage: string,  // the translation target picked, "default" before any
    response: string,          // the translation, "" when there is none
    responseLanguage: string,  // the language of `response`
    summary: string,           // the summary, "" when there is none
    summaryLanguage: string,   // the language of `summary`
    loading: bool)             // a translation or summary request is in flight

  /** The sentinel target of a message nobody has asked to translate yet. */
  const NoTarget: string := "default"

  /** The message `handleSubmit` builds for input `text` detected as `detected`. */
  function NewMessage(text: string, detected: string): Message {
    Message(text, detected, NoTarget, "", "", "", "", false)
  }

  /** First step of a language change: the target is recorded and the message shows
      as loading. */
  function AwaitingTranslation(m: Message, newLang: string): Message {
    m.(selectedLanguage := newLang, loading := true)
  }

  /** Second step of a language change, built from the first step's snapshot: a target
      equal to the detected language clears the translation, any other target gets the
      translator's output for the target's code. */
  function Translated(pending: Message, newLang: string, translate: Translator): Message {
    if newLang != pending.language then
      pending.(response := translate(pending.text, LanguageCode(newLang)),
               responseLanguage := newLang, loading := false)
    else
      pending.(response := "", responseLanguage := "", loading := false)
  }

  /** What a whole language change makes of message `m`. */
  function LanguageChanged(m: Message, newLang: string, translate: Translator): Message {
    Translated(AwaitingTranslation(m, newLang), newLang, translate)
  }

  /** First step of a summary request: the message shows as loading. */
  function AwaitingSummary(m: Message): Message {
    m.(loading := true)
  }

  /** Second step of a summary request, built from the first step's snapshot. */
  function Summarized(pending: Message, summarize: Summarizer): Message {
    pending.(summary := summarize(pending.text), summaryLanguage := SummaryLanguage,
             loading := false)
  }

  /** What a whole summary request makes of message `m`. */
  function SummaryAdded(m: Message, summarize: Summarizer): Message {
    Summarized(AwaitingSummary(m), summarize)
  }

  /** A fresh message carries the typed text and the detected language, the "default"
      target, no translation, no summary, and is not loading. */
  lemma NewMessageIsBlank(text: string, detected: string)
    ensures var m := NewMessage(text, detected);
            m.text == text && m.language == detected && m.selectedLanguage == "default"
            && m.response == "" && m.responseLanguage == ""
            && m.summary == "" && m.summaryLanguage == "" && !m.loading
  {
  }

  /** A language change shows as loading between its steps, then settles on the new
      target, not loading, with the translation cleared when the target is the detected
      language and set to the translator's output otherwise; the text, the detected
      language and the summary are left alone. */
  lemma LanguageChangeOutcome(m: Message, newLang: string, translate: Translator)
    ensures var p := AwaitingTranslation(m, newLang);
            p.loading && p.selectedLanguage == newLang
            && p.(loading := m.loading, selectedLanguage := m.selectedLanguage) == m
    ensures var r := LanguageChanged(m, newLang, translate);
            r.selectedLanguage == newLang && !r.loading
            && r.text == m.text && r.language == m.language
            && r.summary == m.summary && r.summaryLanguage == m.summaryLanguage
            && (newLang == m.language ==> r.response == "" && r.responseLanguage == "")
            && (newLang != m.language ==>
                  r.response == translate(m.text, LanguageCode(newLang))
                  && r.responseLanguage == newLang)
  {
  }

  /** Choosing the same target twice ends in the same message as choosing it once. */
  lemma LanguageChangeIdempotent(m: Message, newLang: string, translate: Translator)
    ensures LanguageChanged(LanguageChanged(m, newLang, translate), newLang, translate)
            == LanguageChanged(m, newLang, translate)
  {
  }

  /** A summary request shows as loading between its steps, then holds the
      summariser's output for the text, reported in English, not loading; the text,
      the detected language and the translation are left alone. */
  lemma SummaryOutcome(m: Message, summarize: Summarizer)
    ensures AwaitingSummary(m).loading && AwaitingSummary(m).(loading := m.loading) == m
    ensures var r := SummaryAdded(m, summarize);
            r.summary == summarize(m.text) && r.summaryLanguage == "English" && !r.loading
            && r.text == m.text && r.language == m.language
            && r.selectedLanguage == m.selectedLanguage
            && r.response == m.response && r.responseLanguage == m.responseLanguage
  {
  }
}
