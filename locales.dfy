/** The bot's localized texts: the built-in defaults, the copy of the
    database texts held in memory, and the lookup that falls back from one to
    the other. Placeholder substitution (`str.format`) is a parameter. */
module Locales {
  import opened Wrappers

  /** Texts by language code, then by key. */
  type TextTable = map<string, map<string, string>>

  /** What `text.format(**kwargs)` does: it substitutes, or raises a
      `KeyError` for a placeholder without an argument, or raises anything
      else (a malformed or positional placeholder). */
  datatype FormatOutcome = Formatted(text: string) | MissingKey | Raised(message: string)

  type Formatter = (string, map<string, string>) -> FormatOutcome

  /** The texts shipped with the bot, for Portuguese, English and Hungarian. */
  const DefaultTexts: TextTable := map[
    "pt" := map[
      "welcome" := "👋 Bem-vindo! Escolha o seu idioma:",
      "hello" := "Olá, {name}!",
      "subscribe_channel" := "Inscreva-se no nosso canal para obter seu bônus 🤑",
      "join_now" := "Junte-se agora 👇 Clique no link abaixo para seguir",
      "subscribe_button" := "Inscrever-se",
      "subscribed_button" := "Já me inscrevi",
      "thank_you_subscription" := "🧡 Obrigado pela inscrição! 🧡",
      "promo_code_message" := "➡️  Sua promoção FS sem depósito - {promo_code}\n\nAtive-a na página da sua conta!",
      "activate_button" := "USAR BÔNUS FS AGORA",
      "not_subscribed" := "❌ Você ainda não se inscreveu no canal!\n\nPor favor, inscreva-se e clique no botão novamente.",
      "language_selected" := "✅ Idioma alterado com sucesso para Português",
      "language_prompt" := "🌐 Escolha o idioma:",
      "offer_expired" := "😔 Infelizmente, esta oferta não está mais disponível",
      "offer_already_activated" := "ℹ️ Você já ativou este bônus"
    ],
    "en" := map[
      "welcome" := "👋 Welcome! Choose your language:",
      "hello" := "Hello, {name}!",
      "subscribe_channel" := "Subscribe to our channel to get your bonus 🤑",
      "join_now" := "Join now 👇 Click link below to follow",
      "subscribe_button" := "Subscribe",
      "subscribed_button" := "I have subscribed",
      "thank_you_subscription" := "🧡 Thank you for the subscription 🧡",
      "promo_code_message" := "➡️  Your no-deposit FS promo - {promo_code}\n\nActivate it in your account page!",
      "activate_button" := "USE BONUS FS NOW",
      "not_subscribed" := "❌ You haven\'t subscribed to the channel yet!\n\nPlease subscribe and click the button again.",
      "language_selected" := "✅ Language successfully changed to English",
      "language_prompt" := "🌐 Choose language:",
      "offer_expired" := "😔 Unfortunately, this offer is no longer available",
      "offer_already_activated" := "ℹ️ You have already activated this bonus"
    ],
    "hu" := map[
      "welcome" := "👋 Üdvözöljük! Válassza ki a nyelvét:",
      "hello" := "Helló, {name}!",
      "subscribe_channel" := "Iratkozzon fel csatornánkra a bónuszért 🤑",
      "join_now" := "Csatlakozzon most 👇 Kattintson az alábbi linkre",
      "subscribe_button" := "Feliratkozás",
      "subscribed_button" := "Már feliratkoztam",
      "thank_you_subscription" := "🧡 Köszönjük a feliratkozást! 🧡",
      "promo_code_message" := "➡️  Az Ön befizetés nélküli FS promóciója - {promo_code}\n\nAktiválja a fiók oldalán!",
      "activate_button" := "BÓNUSZ FS HASZNÁLATA MOST",
      "not_subscribed" := "❌ Még nem iratkozott fel a csatornára!\n\nKérjük, iratkozzon fel és kattintson újra a gombra.",
      "language_selected" := "✅ A nyelv sikeresen megváltoztatva Magyarra",
      "language_prompt" := "🌐 Válasszon nyelvet:",
      "offer_expired" := "😔 Sajnos ez az ajánlat már nem elérhető",
      "offer_already_activated" := "ℹ️ Ön már aktiválta ezt a bónuszt"
    ]
  ]

  /** Formats `text` when keyword arguments are given; a `KeyError` gives the
      text unformatted and any other exception propagates. */
  function ApplyFormat(text: string, kwargs: map<string, string>, format: Formatter): (r: Result<string, string>)
    ensures |kwargs| == 0 ==> r == Ok(text)
    ensures |kwargs| > 0 && format(text, kwargs).MissingKey? ==> r == Ok(text)
    ensures |kwargs| > 0 && format(text, kwargs).Formatted? ==> r == Ok(format(text, kwargs).text)
    ensures r.Err? <==> |kwargs| > 0 && format(text, kwargs).Raised?
  {
    if |kwargs| == 0 then Ok(text)
    else match format(text, kwargs)
      case Formatted(t) => Ok(t)
      case MissingKey => Ok(text)
      case Raised(message) => Err(message)
  }

  /** The text of `key` in `language` in a table, if the table has one. */
  function Entry(table: TextTable, language: string, key: string): (r: Option<string>)
    ensures r.Some? <==> language in table && key in table[language]
    ensures r.Some? ==> r.value == table[language][key]
  {
    if language in table && key in table[language] then Some(table[language][key]) else None
  }

  /** The built-in text: an unknown language reads as English, and a key
      the language lacks reads as its English text, or as the key itself. */
  function DefaultLookup(language: string, key: string): (r: string)
    ensures Entry(DefaultTexts, language, key).Some? ==> r == Entry(DefaultTexts, language, key).value
    ensures language in DefaultTexts && key !in DefaultTexts[language] ==>
              r == (if key in DefaultTexts["en"] then DefaultTexts["en"][key] else key)
  {
    var lang := if language in DefaultTexts then language else "en";
    var english := if key in DefaultTexts["en"] then DefaultTexts["en"][key] else key;
    if key in DefaultTexts[lang] then DefaultTexts[lang][key] else english
  }

  /** The language the database copy is read in: with a non-empty copy, a
      language it lacks is replaced by English. */
  function CacheLanguage(cache: TextTable, language: string): (r: string)
    ensures |cache| > 0 && language !in cache ==> r == "en"
    ensures |cache| == 0 || language in cache ==> r == language
  {
    if |cache| > 0 && language !in cache then "en" else language
  }

  /** The unformatted text `get_text` settles on: a non-empty text of the
      database copy, else the built-in text in the (possibly replaced)
      language. */
  function Resolve(cache: TextTable, language: string, key: string): (r: string)
    ensures r != DefaultLookup(CacheLanguage(cache, language), key) ==>
              r != "" && exists l :: l in cache && key in cache[l] && cache[l][key] == r
  {
    var lang := CacheLanguage(cache, language);
    var cached := Entry(cache, lang, key);
    if cached.Some? && cached.value != "" then cached.value
    else DefaultLookup(lang, key)
  }

  /** `get_text`: the resolved text, formatted. */
  function GetText(cache: TextTable, language: string, key: string, kwargs: map<string, string>, format: Formatter): (r: Result<string, string>)
    ensures r == ApplyFormat(Resolve(cache, language, key), kwargs, format)
    ensures |kwargs| == 0 ==> r == Ok(Resolve(cache, language, key))
  {
    ApplyFormat(Resolve(cache, language, key), kwargs, format)
  }

  /** The module-level copy of the database texts. */
  class LocaleCache {
    var texts: TextTable

    constructor()
      ensures texts == map[]
    {
      texts := map[];
    }

    /** `set_texts_cache`: the whole copy is replaced. */
    method SetTextsCache(texts: TextTable)
      modifies this
      ensures this.texts == texts
    {
      this.texts := texts;
    }

    function Get(language: string, key: string, kwargs: map<string, string>, format: Formatter): Result<string, string>
      reads this
    {
      GetText(texts, language, key, kwargs, format)
    }
  }

  /** A non-empty text in the database copy wins over the defaults. */
  lemma CachedTextWins(cache: TextTable, language: string, key: string)
    requires language in cache && key in cache[language] && cache[language][key] != ""
    ensures Resolve(cache, language, key) == cache[language][key]
  {
  }

  /** With a non-empty copy, a language it lacks is read exactly as English,
      both from the copy and from the defaults. */
  lemma UncachedLanguageReadsAsEnglish(cache: TextTable, language: string, key: string)
    requires |cache| > 0 && language !in cache
    ensures Resolve(cache, language, key) == Resolve(cache, "en", key)
  {
  }

  /** A missing or empty text in the copy falls through to the defaults, in
      the language the copy was read in (English for one the copy lacks). */
  lemma EmptyCachedTextFallsThrough(cache: TextTable, language: string, key: string)
    requires |cache| > 0 && language !in cache
    requires "en" !in cache || key !in cache["en"] || cache["en"][key] == ""
    ensures Resolve(cache, language, key) == DefaultLookup("en", key)
  {
  }

  /** An empty copy leaves the defaults alone, in the language asked for. */
  lemma EmptyCacheUsesDefaults(language: string, key: string)
    ensures Resolve(map[], language, key) == DefaultLookup(language, key)
  {
  }

  /** In the defaults, a language without built-in texts reads as English. */
  lemma UnknownDefaultLanguageReadsAsEnglish(language: string, key: string)
    requires language !in DefaultTexts
    ensures DefaultLookup(language, key) == DefaultLookup("en", key)
  {
  }

  /** The three built-in languages define the same keys, so the English and
      key fallbacks only matter for a key none of them knows. */
  lemma DefaultsShareKeys()
    ensures DefaultTexts.Keys == {"pt", "en", "hu"}
    ensures DefaultTexts["pt"].Keys == DefaultTexts["en"].Keys
    ensures DefaultTexts["hu"].Keys == DefaultTexts["en"].Keys
  {
  }

  /** A key no built-in language knows is returned as itself, whatever the
      language. */
  lemma UnknownKeyIsItsOwnText(language: string, key: string)
    requires key !in DefaultTexts["en"]
    ensures DefaultLookup(language, key) == key
  {
    DefaultsShareKeys();
  }
}
