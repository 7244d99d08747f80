/**
 * The bot's two locales, its translation table, and how a user's locale is
 * chosen on `/start` and read back by every handler.
 */
module Translations {
  import opened Wrappers

  type UserId = int

  /** The locales the translation table has a text for. */
  const Locales: set<string> := {"ru", "en"}

  const DefaultLocale: string := "ru"

  datatype MessageKey = StartMsg | LimitMsg | ChooseFormat

  /** The translation table: one text per message key and locale. */
  const Table: map<MessageKey, map<string, string>> := map[
    StartMsg := map[
      "ru" := "👋 Привет! Выберите устройство и отправьте ссылку на YouTube, TikTok или Instagram.",
      "en" := "👋 Hello! Choose your device and send a link from YouTube, TikTok or Instagram."],
    LimitMsg := map[
      "ru" := "⚠️ Ты достиг лимита на сегодня.",
      "en" := "⚠️ You’ve reached today’s limit."],
    ChooseFormat := map[
      "ru" := "Выберите формат:",
      "en" := "Choose format:"]
  ]

  /** `translations[key][lang]`: defined for every key and every stored locale. */
  function Translate(key: MessageKey, lang: string): (text: string)
    requires lang in Locales
    ensures key in Table && lang in Table[key] && text == Table[key][lang]
  {
    assert key == StartMsg || key == LimitMsg || key == ChooseFormat;
    assert StartMsg in Table && LimitMsg in Table && ChooseFormat in Table;
    assert Table[StartMsg].Keys == Locales;
    assert Table[LimitMsg].Keys == Locales;
    assert Table[ChooseFormat].Keys == Locales;
    Table[key][lang]
  }

  /** The locale `/start` records: the client's language code if it is one of the two, else Russian. */
  function LocaleFor(languageCode: Option<string>): (lang: string)
    ensures lang in Locales
    ensures lang == "en" <==> languageCode == Some("en")
  {
    if languageCode.Some? && languageCode.value in ["en", "ru"] then languageCode.value else DefaultLocale
  }

  /** Every locale the store holds has a column in the translation table. */
  ghost predicate KnownLocales(userLanguage: map<UserId, string>)
  {
    forall u | u in userLanguage :: userLanguage[u] in Locales
  }

  /** `get_lang`: the user's stored locale, Russian for a user who never sent `/start`. */
  function GetLang(userLanguage: map<UserId, string>, user: UserId): (lang: string)
    requires KnownLocales(userLanguage)
    ensures lang in Locales
    ensures user !in userLanguage ==> lang == DefaultLocale
  {
    if user in userLanguage then userLanguage[user] else DefaultLocale
  }

  /** Recording a locale chosen by `LocaleFor` keeps every stored locale known, and `GetLang` reads it back. */
  lemma RecordLocale(userLanguage: map<UserId, string>, user: UserId, languageCode: Option<string>)
    requires KnownLocales(userLanguage)
    ensures KnownLocales(userLanguage[user := LocaleFor(languageCode)])
    ensures GetLang(userLanguage[user := LocaleFor(languageCode)], user) == LocaleFor(languageCode)
  {
  }
}
