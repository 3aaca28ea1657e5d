/** Bot users: registration on first contact, tags, language changes, the
    segmentation query, and the counts shown on the dashboard. */
module UserService {
  import opened Wrappers
  import opened Seqs
  import opened Models
  import opened Store

  /** The prefix of the tag every new user gets, followed by the
      registration date as YYYY-MM-DD. */
  const RegisteredPrefix: string := "registered_"

  /** A returning user: seen now, and the names replaced only by non-empty
      new ones. */
  function Refresh(u: User, username: Option<string>, fullName: Option<string>, now: Instant): (r: User)
    ensures r.lastActive == now
    ensures r.username == (if Truthy(username) then username else u.username)
    ensures r.fullName == (if Truthy(fullName) then fullName else u.fullName)
    ensures r.(lastActive := u.lastActive, username := u.username, fullName := u.fullName) == u
  {
    u.(lastActive := now,
       username := if Truthy(username) then username else u.username,
       fullName := if Truthy(fullName) then fullName else u.fullName)
  }

  /** The tags table once a tag name is known to it. */
  function EnsureTag(tags: seq<Tag>, name: string): (r: seq<Tag>)
    ensures exists i :: 0 <= i < |r| && r[i].name == name
    ensures (exists i :: 0 <= i < |tags| && tags[i].name == name) ==> r == tags
    ensures !(exists i :: 0 <= i < |tags| && tags[i].name == name) ==>
              r == tags + [Tag(NextId(tags, (t: Tag) => t.id), name, None)]
  {
    match IndexWhere(tags, (t: Tag) => t.name == name)
    case Some(i) => tags
    case None =>
      var r := tags + [Tag(NextId(tags, (t: Tag) => t.id), name, None)];
      assert r[|tags|].name == name;
      r
  }

  /** Knowing a tag twice is knowing it once. */
  lemma EnsureTagIdempotent(tags: seq<Tag>, name: string)
    ensures EnsureTag(EnsureTag(tags, name), name) == EnsureTag(tags, name)
  {
  }

  /** The users after a tag is given to the user with an id, unless it has it. */
  function TagUser(users: seq<User>, userId: int, name: string): (r: seq<User>)
    ensures |r| == |users|
    ensures forall i :: 0 <= i < |users| ==> r[i].(tags := users[i].tags) == users[i]
    ensures forall i :: 0 <= i < |users| && users[i].id != userId ==> r[i] == users[i]
  {
    match FindUserById(users, userId)
    case None => users
    case Some(i) =>
      if name in users[i].tags then users
      else users[i := users[i].(tags := users[i].tags + [name])]
  }

  /** After tagging, the user has the tag, once more than before at most. */
  lemma TagUserGivesTag(users: seq<User>, userId: int, name: string)
    requires FindUserById(users, userId).Some?
    ensures var i := FindUserById(users, userId).value;
            var after := TagUser(users, userId, name)[i].tags;
            name in after && (after == users[i].tags || after == users[i].tags + [name])
  {
  }

  /** Tagging is idempotent. */
  lemma TagUserIdempotent(users: seq<User>, userId: int, name: string)
    ensures TagUser(TagUser(users, userId, name), userId, name) == TagUser(users, userId, name)
  {
    var once := TagUser(users, userId, name);
    IndexWhereCongruent(users, once, (u: User) => u.id == userId, (u: User) => u.id == userId);
  }

  /** Valid is kept when one user row changes without changing its keys. */
  lemma ReplaceUserKeepsKeys(users: seq<User>, i: nat, u: User)
    requires i < |users| && users[i].id == u.id && users[i].telegramId == u.telegramId
    requires Unique(users, (v: User) => v.id) && Unique(users, (v: User) => v.telegramId)
    ensures Unique(users[i := u], (v: User) => v.id) && Unique(users[i := u], (v: User) => v.telegramId)
  {
  }

  /** `add_tag_to_user`: the tag is created if the table lacks it, then given
      to the user if the user lacks it. `false`, and nothing changed, when
      the user is not in the table (where the refresh raises). */
  method AddTagToUser(db: Database, userId: int, name: string) returns (found: bool)
    requires db.Valid()
    modifies db`users, db`tags
    ensures db.Valid()
    ensures found <==> FindUserById(old(db.users), userId).Some?
    ensures found ==> db.tags == EnsureTag(old(db.tags), name) && db.users == TagUser(old(db.users), userId, name)
    ensures !found ==> db.tags == old(db.tags) && db.users == old(db.users)
  {
    var at := FindUserById(db.users, userId);
    if at.None? {
      return false;
    }
    var i := at.value;
    var tagAt := IndexWhere(db.tags, (t: Tag) => t.name == name);
    if tagAt.None? {
      db.tags := db.tags + [Tag(NextId(db.tags, (t: Tag) => t.id), name, None)];
    }
    if name !in db.users[i].tags {
      ReplaceUserKeepsKeys(db.users, i, db.users[i].(tags := db.users[i].tags + [name]));
      db.users := db.users[i := db.users[i].(tags := db.users[i].tags + [name])];
    }
    found := true;
  }

  /** `get_or_create_user`. A known Telegram id is refreshed and returned with
      `false`; otherwise one user is created with the given fields, tagged
      with its registration date, and returned with `true`.
      `registrationDate` is `now` formatted as YYYY-MM-DD. */
  method GetOrCreateUser(db: Database, telegramId: int, username: Option<string>, fullName: Option<string>,
                         source: Option<string>, language: string, now: Instant, registrationDate: string)
    returns (user: User, isNew: bool)
    requires db.Valid()
    modifies db`users, db`tags
    ensures db.Valid()
    ensures isNew <==> FindUser(old(db.users), telegramId).None?
    ensures !isNew ==>
              var i := FindUser(old(db.users), telegramId).value;
              && db.users == old(db.users)[i := Refresh(old(db.users)[i], username, fullName, now)]
              && user == db.users[i] && db.tags == old(db.tags)
    ensures isNew ==>
              && user == User(NextId(old(db.users), (u: User) => u.id), telegramId, username, fullName, language, source,
                              now, now, [RegisteredPrefix + registrationDate], [])
              && db.users == old(db.users) + [user]
              && db.tags == EnsureTag(old(db.tags), RegisteredPrefix + registrationDate)
  {
    var found := FindUser(db.users, telegramId);
    if found.Some? {
      var i := found.value;
      var refreshed := Refresh(db.users[i], username, fullName, now);
      ReplaceUserKeepsKeys(db.users, i, refreshed);
      db.users := db.users[i := refreshed];
      return refreshed, false;
    }
    user := RegisterUser(db, telegramId, username, fullName, source, language, now, registrationDate);
    isNew := true;
  }

  /** The creating half of `get_or_create_user`: the new row, then its
      registration tag. */
  method RegisterUser(db: Database, telegramId: int, username: Option<string>, fullName: Option<string>,
                      source: Option<string>, language: string, now: Instant, registrationDate: string)
    returns (user: User)
    requires db.Valid()
    requires FindUser(db.users, telegramId).None?
    modifies db`users, db`tags
    ensures db.Valid()
    ensures user == User(NextId(old(db.users), (u: User) => u.id), telegramId, username, fullName, language, source,
                         now, now, [RegisteredPrefix + registrationDate], [])
    ensures db.users == old(db.users) + [user]
    ensures db.tags == EnsureTag(old(db.tags), RegisteredPrefix + registrationDate)
  {
    var id := NextId(db.users, (u: User) => u.id);
    var created := User(id, telegramId, username, fullName, language, source, now, now, [], []);
    FindUserByIdLast(db.users, created);
    AppendUserKeepsKeys(db.users, created);
    ghost var before := db.users;
    db.users := db.users + [created];
    var tagged := AddTagToUser(db, id, RegisteredPrefix + registrationDate);
    user := created.(tags := [RegisteredPrefix + registrationDate]);
    assert created.tags + [RegisteredPrefix + registrationDate] == user.tags;
    assert db.users == (before + [created])[|before| := user];
  }

  /** Valid is kept when a user row with new keys is appended. */
  lemma AppendUserKeepsKeys(users: seq<User>, u: User)
    requires Unique(users, (v: User) => v.id) && Unique(users, (v: User) => v.telegramId)
    requires forall i :: 0 <= i < |users| ==> users[i].id != u.id && users[i].telegramId != u.telegramId
    ensures Unique(users + [u], (v: User) => v.id) && Unique(users + [u], (v: User) => v.telegramId)
  {
    var s := users + [u];
    assert forall i :: 0 <= i < |users| ==> s[i] == users[i];
  }

  /** A user whose id no earlier row has is found at the end. */
  lemma FindUserByIdLast(users: seq<User>, u: User)
    requires forall i :: 0 <= i < |users| ==> users[i].id != u.id
    ensures FindUserById(users + [u], u.id) == Some(|users|)
  {
    var found := FindUserById(users + [u], u.id);
    assert (users + [u])[|users|].id == u.id;
  }

  /** `get_user`. */
  function GetUser(users: seq<User>, telegramId: int): (r: Option<User>)
    ensures r.Some? ==> r.value in users && r.value.telegramId == telegramId
    ensures r.None? ==> forall i :: 0 <= i < |users| ==> users[i].telegramId != telegramId
  {
    match FindUser(users, telegramId)
    case None => None
    case Some(i) => Some(users[i])
  }

  /** `update_user_language`: only the language of the user changes; `None`
      and no change for an unknown Telegram id. */
  method UpdateUserLanguage(db: Database, telegramId: int, language: string) returns (r: Option<User>)
    requires db.Valid()
    modifies db`users
    ensures db.Valid()
    ensures r.None? <==> GetUser(old(db.users), telegramId).None?
    ensures r.None? ==> db.users == old(db.users)
    ensures r.Some? ==>
              var i := FindUser(old(db.users), telegramId).value;
              && r.value == old(db.users)[i].(language := language)
              && db.users == old(db.users)[i := r.value]
  {
    var found := FindUser(db.users, telegramId);
    if found.None? {
      return None;
    }
    var i := found.value;
    var changed := db.users[i].(language := language);
    ReplaceUserKeepsKeys(db.users, i, changed);
    db.users := db.users[i := changed];
    r := Some(changed);
  }

  /** The segmentation filters of `get_users`; an unset or empty filter does
      not restrict, and the dates are inclusive. */
  datatype UserQuery = UserQuery(language: Option<string>, source: Option<string>, tags: Option<seq<string>>,
                                 registeredFrom: Option<Instant>, registeredTo: Option<Instant>)

  predicate HasAnyTag(u: User, tags: seq<string>) {
    exists i :: 0 <= i < |u.tags| && u.tags[i] in tags
  }

  predicate Matches(u: User, q: UserQuery) {
    && (Truthy(q.language) ==> u.language == q.language.value)
    && (Truthy(q.source) ==> u.source == Some(q.source.value))
    && (q.registeredFrom.Some? ==> u.createdAt >= q.registeredFrom.value)
    && (q.registeredTo.Some? ==> u.createdAt <= q.registeredTo.value)
    && (q.tags.Some? && q.tags.value != [] ==> HasAnyTag(u, q.tags.value))
  }

  function QueryFilter(q: UserQuery): User -> bool {
    (u: User) => Matches(u, q)
  }

  /** `get_users`, in table order; the `DISTINCT` of the tag join returns each
      user once. */
  function GetUsers(users: seq<User>, q: UserQuery): (r: seq<User>)
    ensures |r| <= |users|
    ensures forall i :: 0 <= i < |r| ==> r[i] in users && Matches(r[i], q)
  {
    FilterMembers(users, QueryFilter(q));
    Filter(users, QueryFilter(q))
  }

  /** Soundness and completeness of the segmentation query. */
  lemma GetUsersMembers(users: seq<User>, q: UserQuery)
    ensures forall u :: u in GetUsers(users, q) <==> u in users && Matches(u, q)
  {
    FilterMembers(users, QueryFilter(q));
  }

  /** No filter, every user. */
  lemma GetUsersUnfiltered(users: seq<User>)
    ensures GetUsers(users, UserQuery(None, None, None, None, None)) == users
  {
    FilterAll(users, QueryFilter(UserQuery(None, None, None, None, None)));
  }

  /** No user is returned twice. */
  lemma GetUsersDistinct(users: seq<User>, q: UserQuery)
    requires Unique(users, (u: User) => u.id)
    ensures Unique(GetUsers(users, q), (u: User) => u.id)
  {
    FilterUnique(users, QueryFilter(q), (u: User) => u.id);
  }

  /** `get_users_count`. */
  function GetUsersCount(users: seq<User>): (n: nat)
    ensures n == |GetUsers(users, UserQuery(None, None, None, None, None))|
  {
    GetUsersUnfiltered(users);
    |users|
  }

  /** A `GROUP BY` on a column with a `COUNT`: each non-null value mapped to
      the number of rows holding it. */
  function GroupCount(column: seq<Option<string>>): (r: map<string, nat>)
    ensures forall k :: k in r <==> Some(k) in column
    ensures forall k :: k in r ==> r[k] == Occurrences(column, Some(k)) && r[k] > 0
    decreases |column|
  {
    if column == [] then map[]
    else
      var n := |column| - 1;
      var before := GroupCount(column[..n]);
      assert column == column[..n] + [column[n]];
      match column[n]
      case None => before
      case Some(k) => before[k := (if k in before then before[k] else 0) + 1]
  }

  function Occurrences(column: seq<Option<string>>, v: Option<string>): (n: nat)
    ensures n > 0 <==> v in column
    decreases |column|
  {
    if column == [] then 0
    else
      var n := |column| - 1;
      assert column == column[..n] + [column[n]];
      Occurrences(column[..n], v) + (if column[n] == v then 1 else 0)
  }

  /** The sum of a map's values over some of its keys. */
  ghost function SumOver(keys: set<string>, m: map<string, nat>): nat
    requires keys <= m.Keys
    decreases keys
  {
    if keys == {} then 0
    else
      var k :| k in keys;
      m[k] + SumOver(keys - {k}, m)
  }

  /** The sum of a map's values. */
  ghost function MapSum(m: map<string, nat>): nat {
    SumOver(m.Keys, m)
  }

  lemma {:induction false} SumOverRemove(keys: set<string>, m: map<string, nat>, k: string)
    requires keys <= m.Keys && k in keys
    ensures SumOver(keys, m) == m[k] + SumOver(keys - {k}, m)
    decreases keys
  {
    var j :| j in keys && SumOver(keys, m) == m[j] + SumOver(keys - {j}, m);
    if j != k {
      SumOverRemove(keys - {j}, m, k);
      SumOverRemove(keys - {k}, m, j);
      assert keys - {j} - {k} == keys - {k} - {j};
    }
  }

  lemma {:induction false} SumOverAgree(keys: set<string>, m1: map<string, nat>, m2: map<string, nat>)
    requires keys <= m1.Keys && keys <= m2.Keys
    requires forall x :: x in keys ==> m1[x] == m2[x]
    ensures SumOver(keys, m1) == SumOver(keys, m2)
    decreases keys
  {
    if keys != {} {
      var k :| k in keys;
      SumOverRemove(keys, m1, k);
      SumOverRemove(keys, m2, k);
      SumOverAgree(keys - {k}, m1, m2);
    }
  }

  /** The non-null rows of a column. */
  function NonNull(column: seq<Option<string>>): (n: nat)
    decreases |column|
  {
    if column == [] then 0
    else NonNull(column[..|column| - 1]) + (if column[|column| - 1].Some? then 1 else 0)
  }

  /** The counts of a `GROUP BY` add up to the non-null rows. */
  lemma {:induction false} GroupCountSum(column: seq<Option<string>>)
    ensures MapSum(GroupCount(column)) == NonNull(column)
    decreases |column|
  {
    if column != [] {
      var n := |column| - 1;
      var before := GroupCount(column[..n]);
      GroupCountSum(column[..n]);
      if column[n].Some? {
        var k := column[n].value;
        var after := GroupCount(column);
        var keys := before.Keys;
        if k in before {
          assert after.Keys == keys;
          SumOverRemove(keys, after, k);
          SumOverRemove(keys, before, k);
          SumOverAgree(keys - {k}, after, before);
        } else {
          assert after.Keys == keys + {k};
          SumOverRemove(keys + {k}, after, k);
          assert keys + {k} - {k} == keys;
          SumOverAgree(keys, after, before);
        }
      }
    }
  }

  function LanguageColumn(users: seq<User>): seq<Option<string>> {
    seq(|users|, i requires 0 <= i < |users| => Some(users[i].language))
  }

  function SourceColumn(users: seq<User>): seq<Option<string>> {
    seq(|users|, i requires 0 <= i < |users| => users[i].source)
  }

  /** `get_users_by_language`. */
  function GetUsersByLanguage(users: seq<User>): (r: map<string, nat>)
    ensures forall i :: 0 <= i < |users| ==> users[i].language in r
    ensures forall l :: l in r ==> r[l] > 0 && exists i :: 0 <= i < |users| && users[i].language == l
  {
    var column := LanguageColumn(users);
    assert forall i :: 0 <= i < |users| ==> column[i] == Some(users[i].language);
    GroupCount(column)
  }

  /** `get_users_by_source`: users without a source are not counted; an empty
      source is a key of its own. */
  function GetUsersBySource(users: seq<User>): (r: map<string, nat>)
    ensures forall i :: 0 <= i < |users| && users[i].source.Some? ==> users[i].source.value in r
    ensures forall s :: s in r ==> r[s] > 0 && exists i :: 0 <= i < |users| && users[i].source == Some(s)
  {
    var column := SourceColumn(users);
    assert forall i :: 0 <= i < |users| ==> column[i] == users[i].source;
    GroupCount(column)
  }

  lemma {:induction false} NonNullAll(column: seq<Option<string>>)
    requires forall i :: 0 <= i < |column| ==> column[i].Some?
    ensures NonNull(column) == |column|
    decreases |column|
  {
    if column != [] {
      NonNullAll(column[..|column| - 1]);
    }
  }

  /** The per-language counts add up to the user count. */
  lemma LanguageCountsSumToTotal(users: seq<User>)
    ensures MapSum(GetUsersByLanguage(users)) == GetUsersCount(users)
  {
    GroupCountSum(LanguageColumn(users));
    NonNullAll(LanguageColumn(users));
  }

  /** The per-source counts add up to the users that have a source. */
  lemma SourceCountsSumToUsersWithSource(users: seq<User>)
    ensures MapSum(GetUsersBySource(users)) == NonNull(SourceColumn(users))
    ensures forall s :: s in GetUsersBySource(users) <==> exists i :: 0 <= i < |users| && users[i].source == Some(s)
  {
    GroupCountSum(SourceColumn(users));
    forall s ensures Some(s) in SourceColumn(users) <==> exists i :: 0 <= i < |users| && users[i].source == Some(s) {
      if Some(s) in SourceColumn(users) {
        var i :| 0 <= i < |users| && SourceColumn(users)[i] == Some(s);
      }
      if exists i :: 0 <= i < |users| && users[i].source == Some(s) {
        var i :| 0 <= i < |users| && users[i].source == Some(s);
        assert SourceColumn(users)[i] == Some(s);
      }
    }
  }
}
