/**
 * The user-interface strings: one table per locale, which may leave keys out, a
 * table of fallback defaults that has every key, and `makeUIStringLookup`, which
 * wraps a locale into a lookup from key to string.
 */
module Localization {
  import opened Wrappers

  datatype AppLocale = EnglishUS | EnglishGB | SpanishUS

  /** The keys of `LocalizedStrings`. */
  datatype StringKey =
    | TitleVanilla | TitleFC | TitleCC
    | Filter | FilterByName | Multiplier | ResetFields | Loading
    | ColName | ColHeight | ColMass | ColPower
    | Unknown | Incalculable

  /** A table that may leave keys out (`Partial<LocalizedStrings>`). */
  type StringTable = map<StringKey, string>

  /** The SpanishUS table: every key but `incalculable`. */
  const SpanishUSStrings: StringTable := map[
    TitleVanilla := "Vainilla TS",
    TitleFC := "React Componente Funcional",
    TitleCC := "React Componente Clase",
    Filter := "Filtrar",
    FilterByName := "Filtrar por nombre",
    Multiplier := "Multiplicador",
    ResetFields := "Presione \"Escape\" para restablecer el formulario",
    Loading := "Cargando...",
    ColName := "Nombre",
    ColHeight := "Altura",
    ColMass := "Masa",
    ColPower := "Energ\U{221A}\U{2260}a",  // the characters the table holds, as written
    Unknown := "desconocido"]

  /** `localizedStrings`: the table of each locale; both English tables are empty. */
  const LocalizedStrings: map<AppLocale, StringTable> := map[
    EnglishUS := map[],
    EnglishGB := map[],
    SpanishUS := SpanishUSStrings]

  /** `fallbackDefaults`: a value for every key. */
  function FallbackDefault(key: StringKey): string {
    match key
    case TitleVanilla => "Vanilla TS"
    case TitleFC => "React Functional Component"
    case TitleCC => "React Class Component"
    case Filter => "Filter"
    case FilterByName => "Filter by name"
    case Multiplier => "Multiplier"
    case ResetFields => "Press \"Escape\" to reset fields"
    case Loading => "Loading..."
    case ColName => "Name"
    case ColHeight => "Height"
    case ColMass => "Mass"
    case ColPower => "Power"
    case Unknown => "unknown"
    case Incalculable => "-"
  }

  /**
   * The string the lookup for `locale` gives for `key`: the locale's own value if
   * its table has one, the fallback default otherwise.
   */
  function Localized(locale: AppLocale, key: StringKey): string {
    assert locale == EnglishUS || locale == EnglishGB || locale == SpanishUS;
    var strings := LocalizedStrings[locale];
    if key in strings then strings[key] else FallbackDefault(key)
  }

  /** The argument of `makeUIStringLookup`; each locale may be left out. */
  datatype LookupSetup = LookupSetup(locale: Option<AppLocale>, defaultLocale: Option<AppLocale>)

  /** `locale` of `setup ?? {}`, defaulting to EnglishUS. */
  function SetupLocale(setup: Option<LookupSetup>): (locale: AppLocale)
    ensures setup.None? || setup.value.locale.None? ==> locale == EnglishUS
    ensures setup.Some? && setup.value.locale.Some? ==> locale == setup.value.locale.value
  {
    match setup
    case None => EnglishUS
    case Some(s) => s.locale.GetOr(EnglishUS)
  }

  /** `defaultLocale` of `setup ?? {}`, defaulting to EnglishUS. */
  function SetupDefaultLocale(setup: Option<LookupSetup>): (defaultLocale: AppLocale)
    ensures setup.None? || setup.value.defaultLocale.None? ==> defaultLocale == EnglishUS
    ensures setup.Some? && setup.value.defaultLocale.Some? ==> defaultLocale == setup.value.defaultLocale.value
  {
    match setup
    case None => EnglishUS
    case Some(s) => s.defaultLocale.GetOr(EnglishUS)
  }

  /**
   * `tables[locale] ?? tables[defaultLocale]`; `None` stands for `undefined`, on which
   * reading a key would throw.
   */
  function TableFor(tables: map<AppLocale, StringTable>, locale: AppLocale, defaultLocale: AppLocale): Option<StringTable> {
    if locale in tables then Some(tables[locale])
    else if defaultLocale in tables then Some(tables[defaultLocale])
    else None
  }

  /**
   * `makeUIStringLookup(setup)`: the returned lookup. A `None` result would be the
   * lookup throwing; it never happens, and the result is the locale's value or the
   * fallback default whatever the default locale is.
   */
  function MakeUIStringLookup(setup: Option<LookupSetup>): (lookup: StringKey -> Option<string>)
    ensures forall key :: lookup(key) == Some(Localized(SetupLocale(setup), key))
  {
    var locale := SetupLocale(setup);
    var defaultLocale := SetupDefaultLocale(setup);
    (key: StringKey) =>
      match TableFor(LocalizedStrings, locale, defaultLocale)
      case None => None
      case Some(localeStrings) =>
        Some(if key in localeStrings then localeStrings[key] else FallbackDefault(key))
  }

  /** Every locale has a table, so the default locale is never read. */
  lemma EveryLocaleHasTable(locale: AppLocale, defaultLocale: AppLocale)
    ensures locale in LocalizedStrings
    ensures TableFor(LocalizedStrings, locale, defaultLocale) == Some(LocalizedStrings[locale])
  {
  }

  /** The default locale does not change any lookup. */
  lemma DefaultLocaleIgnored(locale: Option<AppLocale>, defaultLocale: Option<AppLocale>, defaultLocale': Option<AppLocale>, key: StringKey)
    ensures MakeUIStringLookup(Some(LookupSetup(locale, defaultLocale)))(key)
         == MakeUIStringLookup(Some(LookupSetup(locale, defaultLocale')))(key)
  {
  }

  /** With no setup the lookup is the EnglishUS one. */
  lemma NoSetupIsEnglishUS(key: StringKey)
    ensures MakeUIStringLookup(None)(key) == MakeUIStringLookup(Some(LookupSetup(Some(EnglishUS), None)))(key)
  {
  }

  /** Both English locales give every key's fallback default. */
  lemma EnglishFallsBack(locale: AppLocale, key: StringKey)
    requires locale != SpanishUS
    ensures Localized(locale, key) == FallbackDefault(key)
  {
  }

  /** The SpanishUS table has every key except `incalculable`. */
  lemma SpanishCoverage(key: StringKey)
    ensures key in SpanishUSStrings <==> key != Incalculable
  {
  }

  /** Every SpanishUS value differs from the fallback default it replaces. */
  lemma SpanishTranslates(key: StringKey)
    requires key != Incalculable
    ensures Localized(SpanishUS, key) == SpanishUSStrings[key] != FallbackDefault(key)
  {
    SpanishCoverage(key);
  }

  /** `incalculable` is "-" in every locale. */
  lemma IncalculableEverywhere(locale: AppLocale)
    ensures Localized(locale, Incalculable) == "-"
  {
    SpanishCoverage(Incalculable);
  }
}
