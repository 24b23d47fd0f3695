/** The `useTranslation` hook of client/src/components/useTranslation.tsx:
    a language state initialised once, a setter that also saves the
    choice, and the `t` lookup. The hook's state is modelled as an object;
    the saved value and the browser's language tag are constructor
    inputs, and `storedLanguage` stands for the `selectedLanguage` entry
    of local storage. */
module UseTranslation {
  import opened Wrappers
  import opened Translation

  /** `navigator.language.toLowerCase().startsWith('es')`. Only 'E' and
      'S' lower-case to 'e' and 's', and the one character whose lower
      case is longer (U+0130) becomes an 'i', so the test is on the first
      two characters as written. */
  predicate BrowserPrefersSpanish(browserLanguage: string)
  {
    |browserLanguage| >= 2
    && (browserLanguage[0] == 'e' || browserLanguage[0] == 'E')
    && (browserLanguage[1] == 's' || browserLanguage[1] == 'S')
  }

  /** The initial state: a saved 'en' or 'es', else Spanish for a
      Spanish browser, else English. */
  function InitialLanguage(saved: Option<string>, browserLanguage: string): (lang: string)
    ensures lang == "en" || lang == "es"
    ensures saved.Some? && (saved.value == "en" || saved.value == "es") ==> lang == saved.value
    ensures !(saved.Some? && (saved.value == "en" || saved.value == "es")) ==>
      (lang == "es" <==> BrowserPrefersSpanish(browserLanguage))
  {
    if saved.Some? && saved.value in ["en", "es"] then saved.value
    else if BrowserPrefersSpanish(browserLanguage) then "es"
    else "en"
  }

  /** `changeLanguage` saves the choice and reloads the page; the reloaded
      page starts in that language exactly when it is 'en' or 'es'. */
  lemma ReloadKeepsChoice(newLang: string, browserLanguage: string)
    ensures InitialLanguage(Some(newLang), browserLanguage) == newLang <==> newLang == "en" || newLang == "es"
  {
  }

  /** A parameter name that `new RegExp('{{' + name + '}}', 'g')` matches
      literally: word characters only, and not all digits (`{{12}}` would
      read as a quantifier). */
  predicate RegexSafeName(name: string)
  {
    && (forall i :: 0 <= i < |name| ==>
          ('a' <= name[i] <= 'z') || ('A' <= name[i] <= 'Z') || ('0' <= name[i] <= '9') || name[i] == '_')
    && (exists i :: 0 <= i < |name| && !('0' <= name[i] <= '9'))
  }

  class TranslationHook {
    /** The string tables by language code. */
    const translations: map<string, Dictionary>
    var language: string
    var storedLanguage: Option<string>

    constructor (translations: map<string, Dictionary>, saved: Option<string>, browserLanguage: string)
      ensures this.translations == translations
      ensures language == InitialLanguage(saved, browserLanguage)
      ensures storedLanguage == saved
    {
      this.translations := translations;
      language := InitialLanguage(saved, browserLanguage);
      storedLanguage := saved;
    }

    /** `changeLanguage(newLang)`: any string is accepted and saved. */
    method ChangeLanguage(newLang: string)
      modifies this
      ensures language == newLang && storedLanguage == Some(newLang)
    {
      language := newLang;
      storedLanguage := Some(newLang);
    }

    /** `t(key, params)`: the entry for `key` in the current language (or
        the key), with every occurrence of each `{{name}}` replaced by its
        value, parameter by parameter. A language with no table makes the
        lookup throw a TypeError, modelled as `None`. */
    method Translate(key: string, params: seq<Param>) returns (text: Option<string>)
      requires forall k :: 0 <= k < |params| ==> RegexSafeName(params[k].name) && '$' !in params[k].value
      ensures language !in translations ==> text.None?
      ensures language in translations ==>
        text == Some(InterpolateAll(Lookup(translations[language], key), params))
    {
      if language !in translations {
        return None;
      }
      var s := Lookup(translations[language], key);
      var k := 0;
      while k < |params|
        invariant 0 <= k <= |params|
        invariant InterpolateAll(s, params[k..]) == InterpolateAll(Lookup(translations[language], key), params)
      {
        assert params[k..][1..] == params[k + 1..];
        assert |Placeholder(params[k].name)| >= 4;
        s := ReplaceAll(s, Placeholder(params[k].name), params[k].value);
        k := k + 1;
      }
      text := Some(s);
    }
  }
}
