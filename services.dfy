/** The component's external collaborators and the pure lookups around them.
    The language-detection library, the translation endpoint and the summarisation
    endpoint are not modelled; the chat handlers receive them as function values. */
module Services {

  /** One entry of the detection library's ranking: a language name and its score. */
  datatype Guess = Guess(language: string, score: real)

  /** The detection library asked for its single best guess: an empty ranking when it
      recognises nothing. */
  type Detector = string -> seq<Guess>

  /** The translation client: (text, target language code) to translated text; its
      network failures already turned into a fallback string. */
  type Translator = (string, string) -> string

  /** The summarisation client: text to a summary or a fixed failure string. */
  type Summarizer = string -> string

  /** The detected language of a message: the name of the best guess, or "Unknown"
      when the detector returns no guess at all. */
  function DetectLanguage(ranking: seq<Guess>): (name: string)
    ensures ranking == [] ==> name == "Unknown"
    ensures ranking != [] ==> name == ranking[0].language
  {
    if |ranking| > 0 then ranking[0].language else "Unknown"
  }

  /** The target languages offered for translation, with their two-letter codes. */
  const LanguageCodes: map<string, string> :=
    map["English" := "en", "French" := "fr", "Spanish" := "es",
        "Portuguese" := "pt", "Russian" := "ru", "Turkish" := "tr"]

  /** The language every summary is reported in. */
  const SummaryLanguage: string := "English"

  /** The code sent to the translator for a target language name; a name missing
      from the table falls back to English. */
  function LanguageCode(name: string): (code: string)
    ensures name in LanguageCodes ==> code == LanguageCodes[name]
    ensures name !in LanguageCodes ==> code == "en"
    ensures code in LanguageCodes.Values
  {
    if name in LanguageCodes then LanguageCodes[name]
    else assert LanguageCodes["English"] == "en"; "en"
  }

  /** Every code sent to the translator is two lower-case ASCII letters. */
  lemma CodesAreTwoLetters(name: string)
    ensures var code := LanguageCode(name);
            |code| == 2 && 'a' <= code[0] <= 'z' && 'a' <= code[1] <= 'z'
  {
    assert name in LanguageCodes.Keys ==> name in {"English", "French", "Spanish", "Portuguese", "Russian", "Turkish"};
  }

  /** The request falls back to English exactly for English itself and for names
      outside the table: no other supported language shares the code "en". */
  lemma EnglishCodeIff(name: string)
    ensures LanguageCode(name) == "en" <==> name == "English" || name !in LanguageCodes
  {
    assert name in LanguageCodes.Keys ==> name in {"English", "French", "Spanish", "Portuguese", "Russian", "Turkish"};
  }

  /** Distinct supported languages are sent with distinct codes. */
  lemma CodesDistinct(a: string, b: string)
    requires a in LanguageCodes && b in LanguageCodes
    ensures LanguageCode(a) == LanguageCode(b) ==> a == b
  {
    assert a in {"English", "French", "Spanish", "Portuguese", "Russian", "Turkish"};
    assert b in {"English", "French", "Spanish", "Portuguese", "Russian", "Turkish"};
  }
}
