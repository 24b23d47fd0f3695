/** `SimpleI18n` of client/src/components/i18n.ts: a translator object
    whose current language is chosen once at construction and changed on
    request. The browser's language tag and the value saved in local
    storage are constructor inputs; `storedLanguage` stands for the
    storage entry the object writes. */
module I18n {
  import opened Wrappers
  import opened Translation

  datatype Language = En | Es

  function Code(lang: Language): string
  {
    match lang
    case En => "en"
    case Es => "es"
  }

  /** `translations[s]` is truthy exactly for the two language codes. */
  function Supported(s: string): (r: Option<Language>)
    ensures r.Some? <==> s == "en" || s == "es"
    ensures r.Some? ==> Code(r.value) == s
  {
    if s == "en" then Some(En) else if s == "es" then Some(Es) else None
  }

  /** The first two characters, as `substring(0, 2)` gives them. */
  function Prefix2(s: string): (r: string)
    ensures |r| == if |s| < 2 then |s| else 2
    ensures r == s[..|r|]
  {
    if |s| < 2 then s else s[..2]
  }

  /** The constructor's choice: a saved supported language, else the
      browser tag's first two characters if they name a supported
      language (case matters), else English. */
  function InitialLanguage(saved: Option<string>, browserLanguage: string): (lang: Language)
    ensures saved.Some? && Supported(saved.value).Some? ==> Code(lang) == saved.value
    ensures !(saved.Some? && Supported(saved.value).Some?) && Supported(Prefix2(browserLanguage)).Some? ==>
      Code(lang) == Prefix2(browserLanguage)
    ensures !(saved.Some? && Supported(saved.value).Some?) && Supported(Prefix2(browserLanguage)).None? ==>
      lang == En
  {
    if saved.Some? && Supported(saved.value).Some? then Supported(saved.value).value
    else if Supported(Prefix2(browserLanguage)).Some? then Supported(Prefix2(browserLanguage)).value
    else En
  }

  /** A language saved by `changeLanguage` is the one a later page load
      starts in, whatever the browser says. */
  lemma SavedChoiceWins(lang: Language, browserLanguage: string)
    ensures InitialLanguage(Some(Code(lang)), browserLanguage) == lang
  {
  }

  /** The two string tables of i18n.ts. */
  datatype Catalog = Catalog(en: Dictionary, es: Dictionary)
  {
    function Table(lang: Language): Dictionary
    {
      match lang
      case En => en
      case Es => es
    }
  }

  class SimpleI18n {
    const catalog: Catalog
    var currentLanguage: Language
    /** The `language` entry of local storage as this object left it. */
    var storedLanguage: Option<string>

    constructor (catalog: Catalog, saved: Option<string>, browserLanguage: string)
      ensures this.catalog == catalog
      ensures currentLanguage == InitialLanguage(saved, browserLanguage)
      ensures storedLanguage == saved
    {
      this.catalog := catalog;
      currentLanguage := InitialLanguage(saved, browserLanguage);
      storedLanguage := saved;
    }

    /** `t(key, params)`: the entry for `key` in the current language (or
        the key), with the first occurrence of each `{{name}}` replaced by
        its value, parameter by parameter. */
    method Translate(key: string, params: seq<Param>) returns (text: string)
      requires forall k :: 0 <= k < |params| ==> '$' !in params[k].value
      ensures text == InterpolateFirst(Lookup(catalog.Table(currentLanguage), key), params)
    {
      text := Lookup(catalog.Table(currentLanguage), key);
      var k := 0;
      while k < |params|
        invariant 0 <= k <= |params|
        invariant InterpolateFirst(text, params[k..]) == InterpolateFirst(Lookup(catalog.Table(currentLanguage), key), params)
      {
        assert params[k..][1..] == params[k + 1..];
        text := ReplaceFirst(text, Placeholder(params[k].name), params[k].value);
        k := k + 1;
      }
    }

    /** `changeLanguage(lang)`: switches language and saves the choice. */
    method ChangeLanguage(lang: Language)
      modifies this
      ensures GetCurrentLanguage() == lang
      ensures storedLanguage == Some(Code(lang))
    {
      currentLanguage := lang;
      storedLanguage := Some(Code(lang));
    }

    function GetCurrentLanguage(): Language
      reads this
    {
      currentLanguage
    }
  }
}
