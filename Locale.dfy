/** The app's language support: the display name of a language code, the
    supported codes and names, and the locale `setLocale` selects. */
module Locale {
  import opened Text

  const English := "en"
  const Afrikaans := "af"

  /** The codes and the names the language picker offers, index by index. */
  const SupportedLanguages: seq<string> := [English, Afrikaans]
  const SupportedLanguageNames: seq<string> := ["English", "Afrikaans"]

  /** `getLanguageDisplayName`: by the lower-cased code; unknown codes show
      as English. */
  function LanguageDisplayName(code: string): (name: string)
    ensures name == "Afrikaans" <==> Lower(code) == Afrikaans
    ensures name != "Afrikaans" ==> name == "English"
  {
    match Lower(code)
    case "en" => "English"
    case "af" => "Afrikaans"
    case _ => "English"
  }

  /** The locales `setLocale` can select. */
  datatype AppLocale = AfrikaansSouthAfrica | EnglishUnitedStates | SystemDefault

  /** The locale `setLocale` selects for a code. */
  function SelectLocale(code: string): (l: AppLocale)
    ensures l == AfrikaansSouthAfrica <==> Lower(code) == Afrikaans
    ensures l == EnglishUnitedStates <==> Lower(code) == English
  {
    match Lower(code)
    case "af" => AfrikaansSouthAfrica
    case "en" => EnglishUnitedStates
    case _ => SystemDefault
  }

  /** The two lists are aligned: each supported code shows as the name at
      its own index, and selects a locale of its own. */
  lemma SupportedListsAligned()
    ensures |SupportedLanguages| == |SupportedLanguageNames|
    ensures forall i :: 0 <= i < |SupportedLanguages| ==>
      LanguageDisplayName(SupportedLanguages[i]) == SupportedLanguageNames[i]
      && SelectLocale(SupportedLanguages[i]) != SystemDefault
  {
    assert Lower(English) == English;
    assert Lower(Afrikaans) == Afrikaans;
  }

  lemma LowerOfUpperChar(c: char)
    ensures LowerChar(UpperChar(c)) == LowerChar(c)
  {
  }

  /** The display name and the locale do not depend on letter case. */
  lemma CaseInsensitive(code: string)
    ensures LanguageDisplayName(Upper(code)) == LanguageDisplayName(code)
    ensures SelectLocale(Upper(code)) == SelectLocale(code)
  {
    forall i | 0 <= i < |code|
      ensures Lower(Upper(code))[i] == Lower(code)[i]
    {
      LowerOfUpperChar(code[i]);
    }
    assert Lower(Upper(code)) == Lower(code);
  }

  /** A code `setLocale` does not know falls back to the system locale while
      it is shown as English. */
  lemma UnknownCodeShownAsEnglish(code: string)
    requires SelectLocale(code) == SystemDefault
    ensures LanguageDisplayName(code) == "English"
  {
  }
}
