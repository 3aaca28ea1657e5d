/** Rows of the bot's database tables, as values. A `Database` (store.dfy)
    holds one sequence of rows per table, in table order. */
module Models {
  import opened Wrappers

  /** A point in time in microseconds, the resolution of Python's datetime. */
  type Instant = int

  const Second: int := 1_000_000
  const Minute: int := 60 * Second
  const Day: int := 24 * 60 * Minute

  /** Python truthiness of a nullable text column: set and not empty. */
  predicate Truthy(s: Option<string>) {
    s.Some? && s.value != ""
  }

  /** A bot user. Tags are held by name and campaigns by id: both are
      unique keys of their tables. */
  datatype User = User(
    id: int,
    telegramId: int,
    username: Option<string>,
    fullName: Option<string>,
    language: string,
    source: Option<string>,
    createdAt: Instant,
    lastActive: Instant,
    tags: seq<string>,
    campaigns: seq<int>)

  datatype Tag = Tag(id: int, name: string, description: Option<string>)

  datatype Setting = Setting(id: int, key: string, value: string)

  /** The three per-language message columns shared by auto messages and
      campaigns, and the lookup both classes use to pick one. */
  datatype Messages = Messages(pt: Option<string>, hu: Option<string>, en: Option<string>) {
    /** The column a language code names; other codes name none. */
    function Column(language: string): Option<string> {
      if language == "pt" then pt
      else if language == "hu" then hu
      else if language == "en" then en
      else None
    }

    /** The message in `language` if it is non-empty, else the English one if
        that is non-empty, else the empty string. */
    function Get(language: string): (r: string)
      ensures Truthy(Column(language)) ==> r == Column(language).value
      ensures !Truthy(Column(language)) && Truthy(en) ==> r == en.value
      ensures r == "" <==> !Truthy(Column(language)) && !Truthy(en)
    {
      var own := Column(language);
      if own.Some? && own.value != "" then own.value
      else if en.Some? && en.value != "" then en.value
      else ""
    }
  }

  /** A language without a column of its own gets English, or nothing. */
  lemma UnknownLanguageGetsEnglish(m: Messages, language: string)
    requires language != "pt" && language != "hu" && language != "en"
    ensures m.Get(language) == (if Truthy(m.en) then m.en.value else "")
  {
  }

  /** A rule that sends a message a fixed delay after a user registers. */
  datatype AutoMessage = AutoMessage(
    id: int,
    name: string,
    delayMinutes: int,
    messages: Messages,
    mediaType: Option<string>,
    mediaFileId: Option<string>,
    buttonsJson: Option<string>,
    targetLanguage: Option<string>,
    targetSource: Option<string>,
    isActive: bool,
    createdAt: Instant)
  {
    function GetMessage(language: string): string {
      messages.Get(language)
    }
  }

  /** A row of the log that stops an auto message being sent twice. No
      uniqueness constraint covers `(userId, autoMessageId)`. */
  datatype SentAutoMessage = SentAutoMessage(userId: int, autoMessageId: int, sentAt: Instant)

  datatype Language = Language(
    id: int,
    code: string,
    name: string,
    flag: string,
    isActive: bool,
    isDefault: bool,
    sortOrder: int)

  /** An editable bot text. The table has no uniqueness constraint on
      `(key, language)`. */
  datatype BotText = BotText(
    id: int,
    key: string,
    language: string,
    text: string,
    description: Option<string>)

  /** A campaign (offer) that a user activates through a start link. */
  datatype Campaign = Campaign(
    id: int,
    code: string,
    title: string,
    description: Option<string>,
    messages: Messages,
    mediaType: Option<string>,
    mediaFileId: Option<string>,
    buttonsJson: Option<string>,
    activeFrom: Instant,
    activeTo: Option<Instant>,
    isActive: bool,
    language: Option<string>,
    createdAt: Instant)
  {
    function GetMessage(language: string): string {
      messages.Get(language)
    }

    /** Switched on, started, and not yet ended; both bounds are inclusive. */
    function IsCurrentlyActive(now: Instant): (r: bool)
      ensures r <==> isActive && activeFrom <= now && (activeTo.None? || now <= activeTo.value)
    {
      if !isActive then false
      else if now < activeFrom then false
      else if activeTo.Some? && now > activeTo.value then false
      else true
    }
  }

  /** A switched-off campaign is never active. */
  lemma SwitchedOffNeverActive(c: Campaign, now: Instant)
    requires !c.isActive
    ensures !c.IsCurrentlyActive(now)
  {
  }
}
