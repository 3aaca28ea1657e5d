/** The editable bot texts and languages kept in the database: the built-in
    rows the bot starts from, the admin panel's upserts and deletes, and the
    in-memory copy of all texts with its English fallback. */
module TextService {
  import opened Wrappers
  import opened Seqs
  import opened Models
  import opened Store
  import opened Locales

  /** One built-in text: its key, its admin-panel category and description,
      and its text in each language it has. */
  datatype DefaultText = DefaultText(
    key: string,
    category: string,
    description: string,
    en: Option<string>,
    pt: Option<string>,
    hu: Option<string>)
  {
    /** The text for a language code, if the entry has one. */
    function In(code: string): Option<string> {
      if code == "en" then en else if code == "pt" then pt else if code == "hu" then hu else None
    }
  }

  const DefaultTextEntries: seq<DefaultText> := [
    DefaultText("welcome", "start_command", "First message - language selection",
      Some("👋 Welcome! Choose your language:"),
      Some("👋 Bem-vindo! Escolha o seu idioma:"),
      Some("👋 Üdvözöljük! Válassza ki a nyelvét:")),
    DefaultText("hello", "start_command", "Greeting with user name. Use {name}",
      Some("Hello, {name}!"),
      Some("Olá, {name}!"),
      Some("Helló, {name}!")),
    DefaultText("language_prompt", "start_command", "Prompt to choose language",
      Some("🌐 Choose language:"),
      Some("🌐 Escolha o idioma:"),
      Some("🌐 Válasszon nyelvet:")),
    DefaultText("language_selected", "start_command", "Confirmation after language selection",
      Some("✅ Language successfully changed to English"),
      Some("✅ Idioma alterado com sucesso para Português"),
      Some("✅ A nyelv sikeresen megváltoztatva Magyarra")),
    DefaultText("subscribe_channel", "subscription_check", "Message asking to subscribe to channel",
      Some("Subscribe to our channel to get your bonus 🤑"),
      Some("Inscreva-se no nosso canal para obter seu bônus 🤑"),
      Some("Iratkozzon fel csatornánkra a bónuszért 🤑")),
    DefaultText("join_now", "subscription_check", "Call to action for subscription",
      Some("Join Now 👇 Click link below to follow"),
      Some("Junte-se agora 👇 Clique no link abaixo para seguir"),
      Some("Csatlakozzon most 👇 Kattintson az alábbi linkre")),
    DefaultText("subscribe_button", "subscription_check", "Button text for channel subscription",
      Some("Subscribe"),
      Some("Inscrever-se"),
      Some("Feliratkozás")),
    DefaultText("subscribed_button", "subscription_check", "Button \'I have subscribed\'",
      Some("I have subscribed"),
      Some("Já me inscrevi"),
      Some("Már feliratkoztam")),
    DefaultText("not_subscribed", "subscription_check", "Error - user not subscribed",
      Some("❌ You haven\'t subscribed to the channel yet!\n\nPlease subscribe and click the button again."),
      Some("❌ Você ainda não se inscreveu no canal!\n\nPor favor, inscreva-se e clique no botão novamente."),
      Some("❌ Még nem iratkozott fel a csatornára!\n\nKérjük, iratkozzon fel és kattintson újra a gombra.")),
    DefaultText("thank_you_subscription", "after_subscription", "Thank you message after subscription",
      Some("🧡 Thank you for the subscription 🧡"),
      Some("🧡 Obrigado pela inscrição! 🧡"),
      Some("🧡 Köszönjük a feliratkozást! 🧡")),
    DefaultText("promo_code_message", "after_subscription", "Promo code message. Use {promo_code}",
      Some("➡️  Your no-deposit FS promo - {promo_code}\n\nActivate it in your account page!"),
      Some("➡️  Sua promoção FS sem depósito - {promo_code}\n\nAtive-a na página da sua conta!"),
      Some("➡️  Az Ön befizetés nélküli FS promóciója - {promo_code}\n\nAktiválja a fiók oldalán!")),
    DefaultText("activate_button", "after_subscription", "Button to activate promo code",
      Some("USE BONUS FS NOW"),
      Some("USAR BÔNUS FS AGORA"),
      Some("BÓNUSZ FS HASZNÁLATA MOST")),
    DefaultText("offer_expired", "offers", "Offer expired or unavailable",
      Some("😔 Unfortunately, this offer is no longer available"),
      Some("😔 Infelizmente, esta oferta não está mais disponível"),
      Some("😔 Sajnos ez az ajánlat már nem elérhető")),
    DefaultText("offer_already_activated", "offers", "User already activated this offer",
      Some("ℹ️ You have already activated this bonus"),
      Some("ℹ️ Você já ativou este bônus"),
      Some("ℹ️ Ön már aktiválta ezt a bónuszt"))
  ]

  /** The languages each built-in text is stored in, in this order. */
  const DefaultTextLanguages: seq<string> := ["en", "pt", "hu"]

  /** One built-in language. */
  datatype DefaultLanguage = DefaultLanguage(code: string, name: string, flag: string, isDefault: bool, sortOrder: int)

  const DefaultLanguages: seq<DefaultLanguage> := [
    DefaultLanguage("en", "English", "🇬🇧", true, 1),
    DefaultLanguage("pt", "Português", "🇵🇹", false, 2),
    DefaultLanguage("hu", "Magyar", "🇭🇺", false, 3)
  ]

  function TextId(t: BotText): int { t.id }
  function LanguageId(l: Language): int { l.id }
  function SortOrder(l: Language): int { l.sortOrder }
  predicate IsActiveLanguage(l: Language) { l.isActive }

  // ---------------------------------------------------------------- languages

  /** `get_all_languages`: the languages (only the active ones when asked) in
      ascending sort order. */
  function GetAllLanguages(langs: seq<Language>, activeOnly: bool): (r: seq<Language>)
    ensures SortedBy(r, SortOrder)
    ensures forall l :: l in r <==> l in langs && (activeOnly ==> l.isActive)
  {
    FilterMembers(langs, IsActiveLanguage);
    var chosen := if activeOnly then Filter(langs, IsActiveLanguage) else langs;
    var r := SortBy(chosen, SortOrder);
    assert forall l :: l in r <==> l in multiset(r);
    r
  }

  function HasCode(code: string): Language -> bool {
    (l: Language) => l.code == code
  }

  /** `get_language`: the position of the language with a code. */
  function FindLanguage(langs: seq<Language>, code: string): (r: Option<nat>)
    ensures r.Some? ==> r.value < |langs| && langs[r.value].code == code
    ensures r.None? ==> forall i :: 0 <= i < |langs| ==> langs[i].code != code
  {
    IndexWhere(langs, HasCode(code))
  }

  /** The largest sort order, or 0 when there are no languages (the query's
      `scalar() or 0`). */
  function MaxSortOrder(langs: seq<Language>): (r: int)
    ensures forall i :: 0 <= i < |langs| ==> langs[i].sortOrder <= r
    ensures langs != [] ==> exists i :: 0 <= i < |langs| && langs[i].sortOrder == r
    ensures langs == [] ==> r == 0
  {
    if langs == [] then 0
    else if |langs| == 1 then langs[0].sortOrder
    else
      var rest := MaxSortOrder(langs[1..]);
      var i :| 0 <= i < |langs[1..]| && langs[1..][i].sortOrder == rest;
      assert langs[i + 1].sortOrder == rest;
      if langs[0].sortOrder >= rest then langs[0].sortOrder else rest
  }

  /** The row `create_language` adds: active, not the default, and ordered
      after every existing language. */
  function NewLanguage(langs: seq<Language>, code: string, name: string, flag: string): (r: Language)
    ensures r.code == code && r.name == name && r.flag == flag
    ensures r.isActive && !r.isDefault
    ensures forall i :: 0 <= i < |langs| ==> langs[i].sortOrder < r.sortOrder && langs[i].id != r.id
    ensures langs == [] ==> r.sortOrder == 1
    ensures langs != [] ==> exists i :: 0 <= i < |langs| && langs[i].sortOrder == r.sortOrder - 1
  {
    Language(NextId(langs, LanguageId), code, name, flag, true, false, MaxSortOrder(langs) + 1)
  }

  /** `create_language`. A code already in use violates the table's unique
      constraint and nothing is added. */
  method CreateLanguage(db: Database, code: string, name: string, flag: string) returns (r: Result<Language, string>)
    requires db.Valid()
    modifies db`languages
    ensures db.Valid()
    ensures FindLanguage(old(db.languages), code).Some? ==> r.Err? && db.languages == old(db.languages)
    ensures FindLanguage(old(db.languages), code).None? ==>
              r == Ok(NewLanguage(old(db.languages), code, name, flag)) && db.languages == old(db.languages) + [r.value]
  {
    if FindLanguage(db.languages, code).Some? {
      return Err("IntegrityError: UNIQUE constraint failed: languages.code");
    }
    var lang := NewLanguage(db.languages, code, name, flag);
    db.languages := db.languages + [lang];
    r := Ok(lang);
  }

  function OtherLanguage(code: string): Language -> bool {
    (l: Language) => l.code != code
  }

  function NotInLanguage(code: string): BotText -> bool {
    (t: BotText) => t.language != code
  }

  /** `delete_language`: refused for a missing or the default language;
      otherwise the language and every text in it are removed. */
  method DeleteLanguage(db: Database, code: string) returns (deleted: bool)
    requires db.Valid()
    modifies db`languages, db`texts
    ensures db.Valid()
    ensures deleted <==> exists i :: 0 <= i < |old(db.languages)| && old(db.languages)[i].code == code && !old(db.languages)[i].isDefault
    ensures !deleted ==> db.languages == old(db.languages) && db.texts == old(db.texts)
    ensures deleted ==> db.languages == Filter(old(db.languages), OtherLanguage(code))
    ensures deleted ==> db.texts == Filter(old(db.texts), NotInLanguage(code))
  {
    var found := FindLanguage(db.languages, code);
    if found.None? || db.languages[found.value].isDefault {
      return false;
    }
    db.texts := Filter(db.texts, NotInLanguage(code));
    FilterUnique(db.languages, OtherLanguage(code), (l: Language) => l.code);
    db.languages := Filter(db.languages, OtherLanguage(code));
    deleted := true;
  }

  /** After a deletion no language has the code and no text is in it, and
      every other language and text is kept. */
  lemma DeletedLanguageIsGone(langs: seq<Language>, texts: seq<BotText>, code: string)
    ensures forall l :: l in Filter(langs, OtherLanguage(code)) <==> l in langs && l.code != code
    ensures forall t :: t in Filter(texts, NotInLanguage(code)) <==> t in texts && t.language != code
  {
    FilterMembers(langs, OtherLanguage(code));
    FilterMembers(texts, NotInLanguage(code));
  }

  /** The rows `init_default_languages` adds to `langs`, one per built-in
      language in order. */
  function LanguageRows(langs: seq<Language>, defaults: seq<DefaultLanguage>): (r: seq<Language>)
    ensures |r| == |langs| + |defaults| && r[..|langs|] == langs
    decreases |defaults|
  {
    if defaults == [] then langs
    else
      var before := LanguageRows(langs, defaults[..|defaults| - 1]);
      var d := defaults[|defaults| - 1];
      before + [Language(NextId(before, LanguageId), d.code, d.name, d.flag, true, d.isDefault, d.sortOrder)]
  }

  /** The added rows carry the built-in codes, flags and sort orders, in
      order, after the rows already there. */
  lemma {:induction false} LanguageRowsCarryDefaults(langs: seq<Language>, defaults: seq<DefaultLanguage>)
    ensures |LanguageRows(langs, defaults)| == |langs| + |defaults|
    ensures LanguageRows(langs, defaults)[..|langs|] == langs
    ensures forall i :: 0 <= i < |defaults| ==>
              var l := LanguageRows(langs, defaults)[|langs| + i];
              l.code == defaults[i].code && l.name == defaults[i].name && l.flag == defaults[i].flag &&
              l.isActive && l.isDefault == defaults[i].isDefault && l.sortOrder == defaults[i].sortOrder
    decreases |defaults|
  {
    if defaults != [] {
      var init := defaults[..|defaults| - 1];
      LanguageRowsCarryDefaults(langs, init);
      var before := LanguageRows(langs, init);
      var r := LanguageRows(langs, defaults);
      assert r == before + [r[|before|]];
      assert r[..|before|] == before;
      assert r[..|langs|] == before[..|langs|];
      forall i | 0 <= i < |defaults|
        ensures r[|langs| + i].code == defaults[i].code && r[|langs| + i].name == defaults[i].name
        ensures r[|langs| + i].flag == defaults[i].flag && r[|langs| + i].isActive
        ensures r[|langs| + i].isDefault == defaults[i].isDefault && r[|langs| + i].sortOrder == defaults[i].sortOrder
      {
        if i < |init| {
          assert r[|langs| + i] == before[|langs| + i];
          assert init[i] == defaults[i];
        }
      }
    }
  }

  /** The built-in languages: English (the default), Portuguese and
      Hungarian, with distinct codes. */
  lemma InitialLanguages()
    ensures var r := LanguageRows([], DefaultLanguages);
      |r| == 3 && r[0].code == "en" && r[1].code == "pt" && r[2].code == "hu" &&
      r[0].isDefault && !r[1].isDefault && !r[2].isDefault &&
      Unique(r, (l: Language) => l.code)
  {
    LanguageRowsCarryDefaults([], DefaultLanguages);
  }

  /** `init_default_languages`: nothing happens when any language exists. */
  method InitDefaultLanguages(db: Database)
    requires db.Valid()
    modifies db`languages
    ensures db.Valid()
    ensures old(db.languages) != [] ==> db.languages == old(db.languages)
    ensures old(db.languages) == [] ==> db.languages == LanguageRows([], DefaultLanguages)
  {
    if db.languages != [] {
      return;
    }
    var n := 0;
    while n < |DefaultLanguages|
      invariant 0 <= n <= |DefaultLanguages|
      invariant db.languages == LanguageRows([], DefaultLanguages[..n])
    {
      var d := DefaultLanguages[n];
      var lang := Language(NextId(db.languages, LanguageId), d.code, d.name, d.flag, true, d.isDefault, d.sortOrder);
      assert DefaultLanguages[..n + 1][..n] == DefaultLanguages[..n];
      db.languages := db.languages + [lang];
      n := n + 1;
    }
    assert DefaultLanguages[..n] == DefaultLanguages;
    InitialLanguages();
  }

  // -------------------------------------------------------------------- texts

  function TextRow(key: string, code: string): BotText -> bool {
    (t: BotText) => t.key == key && t.language == code
  }

  /** Two rows hold the text of one key in one language. The table does not
      forbid this. */
  predicate Duplicated(texts: seq<BotText>, key: string, code: string) {
    exists i, j :: 0 <= i < j < |texts| && TextRow(key, code)(texts[i]) && TextRow(key, code)(texts[j])
  }

  /** `get_text_by_key`: the position of the only row for a key and a
      language, none, or the error `scalar_one_or_none` raises for several. */
  function FindText(texts: seq<BotText>, key: string, code: string): (r: Result<Option<nat>, string>)
    ensures r.Err? <==> Duplicated(texts, key, code)
    ensures r == Ok(None) <==> forall i :: 0 <= i < |texts| ==> !TextRow(key, code)(texts[i])
    ensures r.Ok? && r.value.Some? ==>
              r.value.value < |texts| && TextRow(key, code)(texts[r.value.value]) &&
              forall j :: 0 <= j < |texts| && j != r.value.value ==> !TextRow(key, code)(texts[j])
  {
    if Duplicated(texts, key, code) then Err("MultipleResultsFound")
    else
      var r := IndexWhere(texts, TextRow(key, code));
      if r.Some? then
        assert forall j :: r.value < j < |texts| ==> !TextRow(key, code)(texts[j]);
        Ok(r)
      else Ok(r)
  }

  /** The table after `update_text`: the row's text is replaced, and its
      description too when a non-empty one is given; a missing row is
      inserted with the given description. */
  function Upserted(texts: seq<BotText>, key: string, code: string, text: string, description: Option<string>): (r: Result<seq<BotText>, string>)
    ensures r.Err? <==> Duplicated(texts, key, code)
  {
    match FindText(texts, key, code)
    case Err(e) => Err(e)
    case Ok(None) => Ok(texts + [BotText(NextId(texts, TextId), key, code, text, description)])
    case Ok(Some(i)) =>
      var old_ := texts[i];
      Ok(texts[i := old_.(text := text, description := if Truthy(description) then description else old_.description)])
  }

  /** After an update the key has exactly one row in the language, holding
      the new text; its description is the given one if that is non-empty,
      and otherwise the earlier row's (none for a new row). Every other row
      is kept in place. */
  lemma UpdateThenFind(texts: seq<BotText>, key: string, code: string, text: string, description: Option<string>)
    requires Upserted(texts, key, code, text, description).Ok?
    ensures var t := Upserted(texts, key, code, text, description).value;
      && FindText(t, key, code).Ok? && FindText(t, key, code).value.Some?
      && t[FindText(t, key, code).value.value].text == text
      && (Truthy(description) ==> t[FindText(t, key, code).value.value].description == description)
      && (FindText(texts, key, code) == Ok(None) ==> t[FindText(t, key, code).value.value].description == description)
      && (forall j :: 0 <= j < |texts| && !TextRow(key, code)(texts[j]) ==> t[j] == texts[j])
  {
    var t := Upserted(texts, key, code, text, description).value;
    match FindText(texts, key, code)
    case Ok(None) =>
      assert TextRow(key, code)(t[|texts|]);
      assert forall j :: 0 <= j < |texts| ==> t[j] == texts[j];
      assert FindText(t, key, code).Ok?;
    case Ok(Some(i)) =>
      assert TextRow(key, code)(t[i]);
      assert FindText(t, key, code).Ok?;
  }

  /** `update_text`. */
  method UpdateText(db: Database, key: string, code: string, text: string, description: Option<string>) returns (r: Result<BotText, string>)
    modifies db`texts
    ensures r.Err? <==> Upserted(old(db.texts), key, code, text, description).Err?
    ensures r.Err? ==> db.texts == old(db.texts)
    ensures r.Ok? ==> db.texts == Upserted(old(db.texts), key, code, text, description).value
    ensures r.Ok? ==> r.value in db.texts && r.value.key == key && r.value.language == code && r.value.text == text
  {
    var found := FindText(db.texts, key, code);
    match found
    case Err(e) =>
      return Err(e);
    case Ok(None) =>
      var row := BotText(NextId(db.texts, TextId), key, code, text, description);
      db.texts := db.texts + [row];
      assert db.texts[|db.texts| - 1] == row;
      return Ok(row);
    case Ok(Some(i)) =>
      var row := db.texts[i].(text := text, description := if Truthy(description) then description else db.texts[i].description);
      db.texts := db.texts[i := row];
      assert db.texts[i] == row;
      return Ok(row);
  }

  /** The table after `create_text_key` for `langs`, in order: an empty text
      with the description for each language that has no row for the key,
      or the error of a language with several. */
  function AddKey(texts: seq<BotText>, langs: seq<Language>, key: string, description: Option<string>): (r: Result<seq<BotText>, string>)
    ensures r.Ok? ==> |texts| <= |r.value| <= |texts| + |langs| && r.value[..|texts|] == texts
    decreases |langs|
  {
    if langs == [] then Ok(texts)
    else match FindText(texts, key, langs[0].code)
      case Err(e) => Err(e)
      case Ok(Some(_)) => AddKey(texts, langs[1..], key, description)
      case Ok(None) =>
        AddKey(texts + [BotText(NextId(texts, TextId), key, langs[0].code, "", description)], langs[1..], key, description)
  }

  /** A row that is not for (`key`, `code`) does not change what
      `get_text_by_key` finds for them. */
  lemma FindTextSnocOther(texts: seq<BotText>, row: BotText, key: string, code: string)
    requires !TextRow(key, code)(row)
    ensures FindText(texts + [row], key, code) == FindText(texts, key, code)
  {
    var s := texts + [row];
    assert forall j :: 0 <= j < |texts| ==> s[j] == texts[j];
    assert Duplicated(s, key, code) ==> Duplicated(texts, key, code);
    assert Duplicated(texts, key, code) ==> Duplicated(s, key, code) by {
      if Duplicated(texts, key, code) {
        var i, j :| 0 <= i < j < |texts| && TextRow(key, code)(texts[i]) && TextRow(key, code)(texts[j]);
        assert s[i] == texts[i] && s[j] == texts[j];
      }
    }
  }

  /** The first row for (`key`, `code`) is found at the end. */
  lemma FindTextSnocNew(texts: seq<BotText>, row: BotText, key: string, code: string)
    requires FindText(texts, key, code) == Ok(None)
    requires TextRow(key, code)(row)
    ensures FindText(texts + [row], key, code) == Ok(Some(|texts|))
  {
    var s := texts + [row];
    assert forall j :: 0 <= j < |texts| ==> s[j] == texts[j];
    assert TextRow(key, code)(s[|texts|]);
  }

  /** A language that already has a row for the key keeps exactly that one. */
  lemma {:induction false} AddKeyKeepsFound(texts: seq<BotText>, langs: seq<Language>, key: string, description: Option<string>, code: string, i: nat)
    requires AddKey(texts, langs, key, description).Ok?
    requires FindText(texts, key, code) == Ok(Some(i))
    ensures FindText(AddKey(texts, langs, key, description).value, key, code) == Ok(Some(i))
    decreases |langs|
  {
    if langs != [] {
      match FindText(texts, key, langs[0].code)
      case Ok(Some(_)) =>
        AddKeyKeepsFound(texts, langs[1..], key, description, code, i);
      case Ok(None) =>
        var row := BotText(NextId(texts, TextId), key, langs[0].code, "", description);
        assert !TextRow(key, code)(row);
        FindTextSnocOther(texts, row, key, code);
        AddKeyKeepsFound(texts + [row], langs[1..], key, description, code, i);
    }
  }

  /** After `create_text_key` every language handled has exactly one row for
      the key. */
  lemma {:induction false} AddKeyCovers(texts: seq<BotText>, langs: seq<Language>, key: string, description: Option<string>)
    requires AddKey(texts, langs, key, description).Ok?
    ensures forall n :: 0 <= n < |langs| ==>
              var found := FindText(AddKey(texts, langs, key, description).value, key, langs[n].code);
              found.Ok? && found.value.Some?
    decreases |langs|
  {
    if langs != [] {
      var t := AddKey(texts, langs, key, description).value;
      var next := texts;
      match FindText(texts, key, langs[0].code) {
      case Ok(Some(i)) =>
        assert t == AddKey(texts, langs[1..], key, description).value;
        AddKeyKeepsFound(texts, langs[1..], key, description, langs[0].code, i);
        assert FindText(t, key, langs[0].code) == Ok(Some(i));
      case Ok(None) =>
        var row := BotText(NextId(texts, TextId), key, langs[0].code, "", description);
        next := texts + [row];
        assert t == AddKey(next, langs[1..], key, description).value;
        FindTextSnocNew(texts, row, key, langs[0].code);
        AddKeyKeepsFound(next, langs[1..], key, description, langs[0].code, |texts|);
        assert FindText(t, key, langs[0].code) == Ok(Some(|texts|));
      }
      assert t == AddKey(next, langs[1..], key, description).value;
      AddKeyCovers(next, langs[1..], key, description);
      forall n | 1 <= n < |langs|
        ensures FindText(t, key, langs[n].code).Ok? && FindText(t, key, langs[n].code).value.Some?
      {
        assert langs[n] == langs[1..][n - 1];
      }
    }
  }

  /** When every language already has its row, `create_text_key` adds
      nothing. */
  lemma {:induction false} AddKeyNoop(texts: seq<BotText>, langs: seq<Language>, key: string, description: Option<string>)
    requires forall n :: 0 <= n < |langs| ==>
               FindText(texts, key, langs[n].code).Ok? && FindText(texts, key, langs[n].code).value.Some?
    ensures AddKey(texts, langs, key, description) == Ok(texts)
    decreases |langs|
  {
    if langs != [] {
      assert forall n :: 0 <= n < |langs[1..]| ==> langs[1..][n] == langs[n + 1];
      AddKeyNoop(texts, langs[1..], key, description);
    }
  }

  /** Creating a text key twice is creating it once. */
  lemma CreateTextKeyIdempotent(texts: seq<BotText>, langs: seq<Language>, key: string, description: Option<string>)
    requires AddKey(texts, langs, key, description).Ok?
    ensures var t := AddKey(texts, langs, key, description).value;
      AddKey(t, langs, key, description) == Ok(t)
  {
    AddKeyCovers(texts, langs, key, description);
    AddKeyNoop(AddKey(texts, langs, key, description).value, langs, key, description);
  }

  /** `create_text_key` keeps every existing row and only appends empty texts
      for the key, each in a language of `langs` that had no row for it. */
  lemma {:induction false} AddKeyOnlyAppends(texts: seq<BotText>, langs: seq<Language>, key: string, description: Option<string>)
    requires AddKey(texts, langs, key, description).Ok?
    ensures var t := AddKey(texts, langs, key, description).value;
      && |t| >= |texts| && t[..|texts|] == texts
      && forall j :: |texts| <= j < |t| ==>
           && t[j].key == key && t[j].text == "" && t[j].description == description
           && (exists n :: 0 <= n < |langs| && langs[n].code == t[j].language)
           && FindText(texts, key, t[j].language) == Ok(None)
    decreases |langs|
  {
    if langs != [] {
      var t := AddKey(texts, langs, key, description).value;
      match FindText(texts, key, langs[0].code)
      case Ok(Some(_)) =>
        AddKeyOnlyAppends(texts, langs[1..], key, description);
        forall j | |texts| <= j < |t|
          ensures exists n :: 0 <= n < |langs| && langs[n].code == t[j].language
        {
          var n :| 0 <= n < |langs[1..]| && langs[1..][n].code == t[j].language;
          assert langs[n + 1].code == t[j].language;
        }
      case Ok(None) =>
        var row := BotText(NextId(texts, TextId), key, langs[0].code, "", description);
        var next := texts + [row];
        AddKeyOnlyAppends(next, langs[1..], key, description);
        assert t[..|next|] == next;
        assert t[..|texts|] == next[..|texts|] == texts;
        forall j | |texts| <= j < |t|
          ensures t[j].key == key && t[j].text == "" && t[j].description == description
          ensures exists n :: 0 <= n < |langs| && langs[n].code == t[j].language
          ensures FindText(texts, key, t[j].language) == Ok(None)
        {
          if j == |texts| {
            assert t[j] == next[j] == row;
          } else {
            var n :| 0 <= n < |langs[1..]| && langs[1..][n].code == t[j].language;
            assert langs[n + 1].code == t[j].language;
            assert FindText(next, key, t[j].language) == Ok(None);
            assert forall m :: 0 <= m < |texts| ==> texts[m] == next[m];
          }
        }
    }
  }

  /** One language of `create_text_key`. */
  lemma AddKeyUnfold(texts: seq<BotText>, langs: seq<Language>, key: string, description: Option<string>)
    requires langs != []
    ensures FindText(texts, key, langs[0].code).Err? ==> AddKey(texts, langs, key, description).Err?
    ensures FindText(texts, key, langs[0].code) == Ok(None) ==>
              AddKey(texts, langs, key, description) ==
              AddKey(texts + [BotText(NextId(texts, TextId), key, langs[0].code, "", description)], langs[1..], key, description)
    ensures FindText(texts, key, langs[0].code).Ok? && FindText(texts, key, langs[0].code).value.Some? ==>
              AddKey(texts, langs, key, description) == AddKey(texts, langs[1..], key, description)
  {
  }

  /** `create_text_key`: the rows are added for the active languages in sort
      order and stored together; an error stores none of them. */
  method CreateTextKey(db: Database, key: string, description: Option<string>) returns (r: Result<bool, string>)
    modifies db`texts
    ensures var expected := AddKey(old(db.texts), GetAllLanguages(db.languages, true), key, description);
      && (r.Err? <==> expected.Err?)
      && (r.Ok? ==> r.value && db.texts == expected.value)
      && (r.Err? ==> db.texts == old(db.texts))
  {
    var added := AddKeyRows(db.texts, GetAllLanguages(db.languages, true), key, description);
    if added.Err? {
      return Err(added.error);
    }
    db.texts := added.value;
    r := Ok(true);
  }

  /** The loop of `create_text_key`: for each language, a row for the key
      unless one exists, stopping at the first lookup that raises. */
  method AddKeyRows(texts: seq<BotText>, languages: seq<Language>, key: string, description: Option<string>)
    returns (r: Result<seq<BotText>, string>)
    ensures r == AddKey(texts, languages, key, description)
  {
    var rows := texts;
    for n := 0 to |languages|
      invariant AddKey(texts, languages, key, description) == AddKey(rows, languages[n..], key, description)
    {
      var lang := languages[n];
      ghost var rest := languages[n..];
      assert rest[0] == lang && rest[1..] == languages[n + 1..];
      AddKeyUnfold(rows, rest, key, description);
      match FindText(rows, key, lang.code)
      case Err(e) =>
        return Err(e);
      case Ok(Some(_)) =>
      case Ok(None) =>
        rows := rows + [BotText(NextId(rows, TextId), key, lang.code, "", description)];
    }
    assert languages[|languages|..] == [];
    r := Ok(rows);
  }

  function OtherKey(key: string): BotText -> bool {
    (t: BotText) => t.key != key
  }

  /** `delete_text_key`: every row of the key goes, and nothing else. */
  method DeleteTextKey(db: Database, key: string) returns (r: bool)
    modifies db`texts
    ensures r
    ensures db.texts == Filter(old(db.texts), OtherKey(key))
    ensures forall t :: t in db.texts <==> t in old(db.texts) && t.key != key
  {
    FilterMembers(db.texts, OtherKey(key));
    db.texts := Filter(db.texts, OtherKey(key));
    r := true;
  }

  /** After `delete_text_key` the key has no row in any language. */
  lemma DeletedKeyIsGone(texts: seq<BotText>, key: string, code: string)
    ensures FindText(Filter(texts, OtherKey(key)), key, code) == Ok(None)
  {
    var kept := Filter(texts, OtherKey(key));
    assert forall i :: 0 <= i < |kept| ==> OtherKey(key)(kept[i]);
  }

  /** The rows a built-in entry adds to `texts` for the languages `codes`,
      in order, skipping a language the entry has no text for. */
  function EntryRows(texts: seq<BotText>, e: DefaultText, codes: seq<string>): (r: seq<BotText>)
    ensures |r| >= |texts| && r[..|texts|] == texts
    decreases |codes|
  {
    if codes == [] then texts
    else
      var before := EntryRows(texts, e, codes[..|codes| - 1]);
      var code := codes[|codes| - 1];
      match e.In(code)
      case None => before
      case Some(t) => before + [BotText(NextId(before, TextId), e.key, code, t, Some(e.description))]
  }

  /** The rows `init_default_texts` adds for `entries`, in order. */
  function DefaultRows(texts: seq<BotText>, entries: seq<DefaultText>): (r: seq<BotText>)
    ensures |r| >= |texts| && r[..|texts|] == texts
    decreases |entries|
  {
    if entries == [] then texts
    else EntryRows(DefaultRows(texts, entries[..|entries| - 1]), entries[|entries| - 1], DefaultTextLanguages)
  }

  /** An entry with an English text adds its English row with the entry's
      key, text and description. */
  lemma EntryAddsEnglish(texts: seq<BotText>, e: DefaultText)
    requires e.en.Some?
    ensures exists j :: |texts| <= j < |EntryRows(texts, e, DefaultTextLanguages)| &&
              EntryRows(texts, e, DefaultTextLanguages)[j] == BotText(NextId(texts, TextId), e.key, "en", e.en.value, Some(e.description))
  {
    var codes := DefaultTextLanguages;
    assert codes[..1][..0] == [];
    assert |codes[..1]| == 1 && codes[..1][0] == "en";
    assert EntryRows(texts, e, []) == texts;
    var one := EntryRows(texts, e, codes[..1]);
    assert one == texts + [BotText(NextId(texts, TextId), e.key, "en", e.en.value, Some(e.description))];
    assert codes[..2][..1] == codes[..1];
    assert codes[..3][..2] == codes[..2];
    assert codes[..3] == codes;
    var two := EntryRows(texts, e, codes[..2]);
    assert two[..|one|] == one;
    assert EntryRows(texts, e, codes)[..|two|] == two;
    assert EntryRows(texts, e, codes)[|texts|] == one[|texts|];
  }

  /** Initializing leaves a non-empty table, so a second initialization does
      nothing. */
  lemma DefaultRowsNonEmpty()
    ensures |DefaultRows([], DefaultTextEntries)| > 0
  {
    var entries := DefaultTextEntries;
    var before := DefaultRows([], entries[..|entries| - 1]);
    EntryAddsEnglish(before, entries[|entries| - 1]);
  }

  /** `init_default_texts`: nothing happens when any text exists. */
  method InitDefaultTexts(db: Database)
    modifies db`texts
    ensures old(db.texts) != [] ==> db.texts == old(db.texts)
    ensures old(db.texts) == [] ==> db.texts == DefaultRows([], DefaultTextEntries)
  {
    if db.texts != [] {
      return;
    }
    var rows := AddDefaultRows([], DefaultTextEntries);
    db.texts := rows;
  }

  /** The loops of `init_default_texts`: for each entry, a row per language
      it has a text in. */
  method AddDefaultRows(texts: seq<BotText>, entries: seq<DefaultText>) returns (rows: seq<BotText>)
    ensures rows == DefaultRows(texts, entries)
  {
    rows := texts;
    for n := 0 to |entries|
      invariant rows == DefaultRows(texts, entries[..n])
    {
      assert entries[..n + 1][..n] == entries[..n];
      var e := entries[n];
      var start := rows;
      for k := 0 to |DefaultTextLanguages|
        invariant rows == EntryRows(start, e, DefaultTextLanguages[..k])
      {
        var code := DefaultTextLanguages[k];
        assert DefaultTextLanguages[..k + 1][..k] == DefaultTextLanguages[..k];
        if e.In(code).Some? {
          rows := rows + [BotText(NextId(rows, TextId), e.key, code, e.In(code).value, Some(e.description))];
        }
      }
      assert DefaultTextLanguages[..|DefaultTextLanguages|] == DefaultTextLanguages;
    }
    assert entries[..|entries|] == entries;
  }

  // ---------------------------------------------------------- the text cache

  /** `get_texts_for_language`: key to text for the rows in a language; a
      later row of a key overwrites an earlier one. */
  function TextsFor(texts: seq<BotText>, code: string): (r: map<string, string>)
    ensures forall k :: k in r <==> exists i :: 0 <= i < |texts| && texts[i].key == k && texts[i].language == code
    decreases |texts|
  {
    if texts == [] then map[]
    else
      var init := texts[..|texts| - 1];
      var last := texts[|texts| - 1];
      var m := TextsFor(init, code);
      assert forall i :: 0 <= i < |init| ==> init[i] == texts[i];
      if last.language == code then m[last.key := last.text] else m
  }

  /** The text of a key is that of its last row in the language. */
  lemma {:induction false} TextsForLastRowWins(texts: seq<BotText>, code: string, i: nat)
    requires i < |texts| && texts[i].language == code
    requires forall j :: i < j < |texts| ==> !TextRow(texts[i].key, code)(texts[j])
    ensures TextsFor(texts, code)[texts[i].key] == texts[i].text
    decreases |texts|
  {
    var init := texts[..|texts| - 1];
    if i < |texts| - 1 {
      assert init[i] == texts[i];
      assert forall j :: i < j < |init| ==> init[j] == texts[j];
      TextsForLastRowWins(init, code, i);
      assert texts[i].key in TextsFor(init, code);
    }
  }

  /** The copy of all texts: for each language, its texts by key. */
  function BuildCache(langs: seq<Language>, texts: seq<BotText>): (r: TextTable)
    ensures forall code :: code in r <==> exists i :: 0 <= i < |langs| && langs[i].code == code
    ensures forall code :: code in r ==> r[code] == TextsFor(texts, code)
    decreases |langs|
  {
    if langs == [] then map[]
    else
      var init := langs[..|langs| - 1];
      assert forall i :: 0 <= i < |init| ==> init[i] == langs[i];
      BuildCache(init, texts)[langs[|langs| - 1].code := TextsFor(texts, langs[|langs| - 1].code)]
  }

  /** Building over one language more adds that language's entry. */
  lemma BuildCacheStep(langs: seq<Language>, n: nat, texts: seq<BotText>)
    requires n < |langs|
    ensures BuildCache(langs[..n + 1], texts) == BuildCache(langs[..n], texts)[langs[n].code := TextsFor(texts, langs[n].code)]
  {
    assert langs[..n + 1][..n] == langs[..n];
  }

  /** The module-level copy of all texts. */
  class TextCache {
    var texts: TextTable

    constructor()
      ensures texts == map[]
    {
      texts := map[];
    }

    /** `refresh_texts_cache`: rebuilt from scratch, one entry per language
        in sort order, active or not. */
    method Refresh(db: Database)
      modifies this
      ensures texts == BuildCache(GetAllLanguages(db.languages, false), db.texts)
    {
      texts := map[];
      var languages := GetAllLanguages(db.languages, false);
      var rows := db.texts;
      for n := 0 to |languages|
        invariant texts == BuildCache(languages[..n], rows)
      {
        BuildCacheStep(languages, n, rows);
        texts := texts[languages[n].code := TextsFor(rows, languages[n].code)];
      }
      assert languages[..|languages|] == languages;
    }

    function Get(language: string, key: string, kwargs: map<string, string>, format: Formatter): Result<string, string>
      reads this
    {
      GetCachedText(texts, language, key, kwargs, format)
    }
  }

  /** After a refresh the copy has exactly the stored languages, active or
      not, each with its texts. */
  lemma RefreshCoversEveryLanguage(langs: seq<Language>, texts: seq<BotText>)
    ensures var cache := BuildCache(GetAllLanguages(langs, false), texts);
      forall code :: code in cache <==> exists l :: l in langs && l.code == code
    ensures var cache := BuildCache(GetAllLanguages(langs, false), texts);
      forall code :: code in cache ==> cache[code] == TextsFor(texts, code)
  {
    var all := GetAllLanguages(langs, false);
    var cache := BuildCache(all, texts);
    forall code
      ensures code in cache <==> exists l :: l in langs && l.code == code
    {
      if code in cache {
        var i :| 0 <= i < |all| && all[i].code == code;
        assert all[i] in langs;
      }
      if l :| l in langs && l.code == code {
        assert l in all;
        var i :| 0 <= i < |all| && all[i] == l;
      }
    }
  }

  /** The unformatted text `get_cached_text` settles on: a non-empty text in
      the language (English for one the copy lacks), else the English text,
      else the key. */
  function CachedLookup(cache: TextTable, language: string, key: string): (r: string)
    ensures r == key || exists l :: l in cache && key in cache[l] && cache[l][key] == r
  {
    var lang := if language in cache then language else "en";
    var own := Entry(cache, lang, key);
    if own.Some? && own.value != "" then own.value
    else match Entry(cache, "en", key)
      case Some(t) => t
      case None => key
  }

  /** `get_cached_text`: the looked-up text, formatted. */
  function GetCachedText(cache: TextTable, language: string, key: string, kwargs: map<string, string>, format: Formatter): (r: Result<string, string>)
    ensures r == ApplyFormat(CachedLookup(cache, language, key), kwargs, format)
  {
    ApplyFormat(CachedLookup(cache, language, key), kwargs, format)
  }

  /** A non-empty text in the language asked for is used as it is. */
  lemma CachedOwnTextWins(cache: TextTable, language: string, key: string)
    requires language in cache && key in cache[language] && cache[language][key] != ""
    ensures CachedLookup(cache, language, key) == cache[language][key]
  {
  }

  /** A language the copy lacks reads as English. */
  lemma CachedUnknownLanguageReadsAsEnglish(cache: TextTable, language: string, key: string)
    requires language !in cache
    ensures CachedLookup(cache, language, key) == CachedLookup(cache, "en", key)
  {
  }

  /** A missing or empty text becomes the English text (which may itself be
      empty), or the key when English has none. */
  lemma CachedMissingTextFallsBack(cache: TextTable, language: string, key: string)
    requires language in cache && (key !in cache[language] || cache[language][key] == "")
    ensures "en" in cache && key in cache["en"] ==> CachedLookup(cache, language, key) == cache["en"][key]
    ensures !("en" in cache && key in cache["en"]) ==> CachedLookup(cache, language, key) == key
  {
  }

  /** A key with no row at all is shown as the key, whatever the language. */
  lemma UnknownKeyShownAsKey(langs: seq<Language>, texts: seq<BotText>, language: string, key: string)
    requires forall i :: 0 <= i < |texts| ==> texts[i].key != key
    ensures CachedLookup(BuildCache(GetAllLanguages(langs, false), texts), language, key) == key
  {
    var cache := BuildCache(GetAllLanguages(langs, false), texts);
  }
}
