/** The bot's SQLite database as an object: one sequence of rows per table,
    in table order, which the services read and reassign. */
module Store {
  import opened Wrappers
  import opened Seqs
  import opened Models

  class Database {
    var users: seq<User>
    var tags: seq<Tag>
    var settings: seq<Setting>
    var autoMessages: seq<AutoMessage>
    var sentLog: seq<SentAutoMessage>
    var languages: seq<Language>
    var texts: seq<BotText>
    var campaigns: seq<Campaign>

    /** The table constraints the schema declares: primary keys and
        `unique=True` columns. */
    ghost predicate Valid()
      reads this
    {
      && Unique(users, (u: User) => u.id)
      && Unique(users, (u: User) => u.telegramId)
      && Unique(tags, (t: Tag) => t.name)
      && Unique(settings, (s: Setting) => s.key)
      && Unique(autoMessages, (m: AutoMessage) => m.id)
      && Unique(languages, (l: Language) => l.code)
      && Unique(campaigns, (c: Campaign) => c.id)
      && Unique(campaigns, (c: Campaign) => c.code)
    }

    constructor()
      ensures Valid()
      ensures users == [] && tags == [] && settings == [] && autoMessages == []
      ensures sentLog == [] && languages == [] && texts == [] && campaigns == []
    {
      users := [];
      tags := [];
      settings := [];
      autoMessages := [];
      sentLog := [];
      languages := [];
      texts := [];
      campaigns := [];
    }
  }

  /** The position of the user with a Telegram id. */
  function FindUser(users: seq<User>, telegramId: int): (r: Option<nat>)
    ensures r.Some? ==> r.value < |users| && users[r.value].telegramId == telegramId
    ensures r.None? ==> forall i :: 0 <= i < |users| ==> users[i].telegramId != telegramId
  {
    IndexWhere(users, (u: User) => u.telegramId == telegramId)
  }

  /** The position of the user with a primary key. */
  function FindUserById(users: seq<User>, id: int): (r: Option<nat>)
    ensures r.Some? ==> r.value < |users| && users[r.value].id == id
    ensures r.None? ==> forall i :: 0 <= i < |users| ==> users[i].id != id
  {
    IndexWhere(users, (u: User) => u.id == id)
  }
}
