/**
 * The language context (contexts/LanguageContext.tsx): Spanish or English,
 * Spanish first, with the dictionary `t` always the one of the current
 * language. The dictionaries themselves are a type parameter.
 */
module Language {

  datatype Lang = Es | En

  /** The two dictionaries, indexed by language. */
  datatype Translations<Dict> = Translations(es: Dict, en: Dict)

  const Initial: Lang := Es

  /** The es/en switch. */
  function Toggle(l: Lang): (r: Lang)
    ensures r != l
  {
    if l == Es then En else Es
  }

  /** Choosing a language outright. */
  function SetLanguage(current: Lang, l: Lang): (r: Lang)
    ensures r == l
  {
    l
  }

  /** `translations[language]`. */
  function T<Dict>(tr: Translations<Dict>, l: Lang): (d: Dict)
    ensures l == Es ==> d == tr.es
    ensures l == En ==> d == tr.en
  {
    match l
    case Es => tr.es
    case En => tr.en
  }

  /** The site opens in Spanish and toggles to English and back. */
  lemma ToggleRoundTrip(l: Lang)
    ensures Toggle(Toggle(l)) == l
    ensures Toggle(Initial) == En && Toggle(En) == Es
  {
  }

  /** Toggling swaps the dictionary in use for the other one. */
  lemma ToggleSwapsDictionary<Dict>(tr: Translations<Dict>, l: Lang)
    ensures T(tr, Toggle(l)) == (if l == Es then tr.en else tr.es)
    ensures T(tr, Initial) == tr.es
  {
  }
}
