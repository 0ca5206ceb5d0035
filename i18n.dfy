/**
 * The internationalisation state of core/i18n.py: a current language that
 * `set_language` changes only to a supported code, and the translations table
 * `translations[key][lang]`, loaded from a JSON file.
 */
module I18n {
  import opened Wrappers

  type Table = map<string, map<string, string>>

  /** `LANGUAGES`. */
  const Languages: seq<string> := ["es", "en", "pt", "it", "de", "zh", "ja"]

  /** `DEFAULT_LANGUAGE`. */
  const DefaultLanguage: string := "en"

  /** `load_translations`: the parsed file, or `{}` when it is missing or does not parse. */
  function LoadedTable(file: Option<Table>): Table
  {
    file.GetOr(map[])
  }

  /** `language or current_language`: `None` and the empty string fall back. */
  function ChosenLanguage(language: Option<string>, current: string): (lang: string)
    ensures language.Some? && language.value != "" ==> lang == language.value
    ensures language.None? || language.value == "" ==> lang == current
  {
    match language
    case Some(l) => if l != "" then l else current
    case None => current
  }

  /** The lookup of `get_text`: the translation when present, otherwise the key itself. */
  function Translate(table: Table, key: string, lang: string): (text: string)
    ensures key !in table || lang !in table[key] ==> text == key
    ensures key in table && lang in table[key] ==> text == table[key][lang]
  {
    if key !in table || lang !in table[key] then key else table[key][lang]
  }

  /** The language after `set_language(l)` from `current`. */
  function SetLanguageStep(current: string, l: string): string
  {
    if l in Languages then l else current
  }

  /** The language after a sequence of `set_language` calls, applied left to right. */
  function LanguageAfter(current: string, calls: seq<string>): string
    decreases |calls|
  {
    if |calls| == 0 then current
    else LanguageAfter(SetLanguageStep(current, calls[0]), calls[1..])
  }

  /** The last supported code among `calls`, if any. */
  function LastAccepted(calls: seq<string>): Option<string>
    decreases |calls|
  {
    if |calls| == 0 then None
    else if calls[|calls| - 1] in Languages then Some(calls[|calls| - 1])
    else LastAccepted(calls[..|calls| - 1])
  }

  lemma {:induction false} LanguageAfterSnoc(current: string, calls: seq<string>, l: string)
    ensures LanguageAfter(current, calls + [l]) == SetLanguageStep(LanguageAfter(current, calls), l)
    decreases |calls|
  {
    if |calls| == 0 {
      assert LanguageAfter(SetLanguageStep(current, l), []) == SetLanguageStep(current, l);
      assert ([] + [l])[1..] == [];
    } else {
      assert (calls + [l])[1..] == calls[1..] + [l];
      LanguageAfterSnoc(SetLanguageStep(current, calls[0]), calls[1..], l);
    }
  }

  /**
   * `get_current_language()` after any sequence of `set_language` calls from the
   * start state returns the last accepted code, or "en" when none was accepted.
   */
  lemma {:induction false} CurrentIsLastAccepted(calls: seq<string>)
    ensures LanguageAfter(DefaultLanguage, calls) == LastAccepted(calls).GetOr(DefaultLanguage)
    ensures LanguageAfter(DefaultLanguage, calls) in Languages
    decreases |calls|
  {
    if |calls| > 0 {
      var init := calls[..|calls| - 1];
      var l := calls[|calls| - 1];
      assert calls == init + [l];
      CurrentIsLastAccepted(init);
      LanguageAfterSnoc(DefaultLanguage, init, l);
    }
  }

  class Localization {
    /** `current_language`. */
    var currentLanguage: string
    /** `translations`. */
    var translations: Table

    ghost predicate Valid()
      reads this
    {
      currentLanguage in Languages
    }

    /** Importing the module: the default language, then `load_translations()`. */
    constructor (file: Option<Table>)
      ensures Valid()
      ensures currentLanguage == DefaultLanguage
      ensures translations == LoadedTable(file)
    {
      currentLanguage := DefaultLanguage;
      translations := LoadedTable(file);
    }

    /** `load_translations()`, reading the translations file `file`. */
    method LoadTranslations(file: Option<Table>)
      modifies this`translations
      ensures translations == LoadedTable(file)
    {
      match file {
        case Some(t) => translations := t;
        case None => translations := map[];
      }
    }

    /**
     * `get_text(key, language)`. An empty table is first reloaded from `file`;
     * then the text is the translation for the chosen language, or `key`.
     */
    method GetText(key: string, language: Option<string>, file: Option<Table>) returns (text: string)
      modifies this`translations
      ensures translations == if old(translations) == map[] then LoadedTable(file) else old(translations)
      ensures text == Translate(translations, key, ChosenLanguage(language, currentLanguage))
    {
      var lang := if language.Some? && language.value != "" then language.value else currentLanguage;
      if translations == map[] {
        LoadTranslations(file);
      }
      if key !in translations || lang !in translations[key] {
        return key;
      }
      text := translations[key][lang];
    }

    /** `set_language(language)`: accepted exactly when the code is supported. */
    method SetLanguage(language: string) returns (ok: bool)
      requires Valid()
      modifies this`currentLanguage
      ensures Valid()
      ensures ok <==> language in Languages
      ensures currentLanguage == if ok then language else old(currentLanguage)
      ensures currentLanguage == SetLanguageStep(old(currentLanguage), language)
    {
      if language in Languages {
        currentLanguage := language;
        ok := true;
      } else {
        ok := false;
      }
    }

    /** `get_current_language()`. */
    method GetCurrentLanguage() returns (l: string)
      requires Valid()
      ensures l == currentLanguage && l in Languages
    {
      l := currentLanguage;
    }
  }
}
