/** Campaigns (offers): creation, lookup by code, activation by a user, the
    campaigns active now, and activation counts. */
module CampaignService {
  import opened Wrappers
  import opened Seqs
  import opened Models
  import opened Store

  /** `active_days` when the caller gives none. */
  const DefaultActiveDays: int := 7

  /** The position of the campaign with a code. */
  function FindCampaign(campaigns: seq<Campaign>, code: string): (r: Option<nat>)
    ensures r.Some? ==> r.value < |campaigns| && campaigns[r.value].code == code
    ensures r.None? ==> forall i :: 0 <= i < |campaigns| ==> campaigns[i].code != code
  {
    IndexWhere(campaigns, (c: Campaign) => c.code == code)
  }

  /** `get_campaign_by_code`. */
  function GetCampaignByCode(campaigns: seq<Campaign>, code: string): (r: Option<Campaign>)
    ensures r.Some? ==> r.value in campaigns && r.value.code == code
    ensures r.None? ==> forall i :: 0 <= i < |campaigns| ==> campaigns[i].code != code
  {
    match FindCampaign(campaigns, code)
    case None => None
    case Some(i) => Some(campaigns[i])
  }

  /** `create_campaign`: a campaign active from now for `activeDays` days.
      A code already in use violates the unique constraint, and the commit
      raises. */
  method CreateCampaign(db: Database, code: string, title: string, messages: Messages, description: Option<string>,
                        activeDays: int, language: Option<string>, isActive: bool, now: Instant)
    returns (r: Result<Campaign, string>)
    requires db.Valid()
    modifies db`campaigns
    ensures db.Valid()
    ensures r.Err? <==> exists i :: 0 <= i < |old(db.campaigns)| && old(db.campaigns)[i].code == code
    ensures r.Err? ==> db.campaigns == old(db.campaigns)
    ensures r.Ok? ==> db.campaigns == old(db.campaigns) + [r.value]
    ensures r.Ok? ==> r.value.code == code && r.value.title == title && r.value.messages == messages
                      && r.value.description == description && r.value.language == language
                      && r.value.isActive == isActive
                      && r.value.mediaType.None? && r.value.mediaFileId.None? && r.value.buttonsJson.None?
                      && r.value.activeFrom == now && r.value.activeTo == Some(now + activeDays * Day)
  {
    if FindCampaign(db.campaigns, code).Some? {
      return Err("IntegrityError: UNIQUE constraint failed: campaigns.code");
    }
    var id := NextId(db.campaigns, (c: Campaign) => c.id);
    var c := Campaign(id, code, title, description, messages, None, None, None,
                      now, Some(now + activeDays * Day), isActive, language, now);
    db.campaigns := db.campaigns + [c];
    r := Ok(c);
  }

  /** A switched-on campaign created at `start` for `days` days is active at
      exactly the instants from `start` to `days` days later, both included. */
  lemma CreatedCampaignActiveForItsDays(c: Campaign, start: Instant, days: int, now: Instant)
    requires c.isActive && c.activeFrom == start && c.activeTo == Some(start + days * Day)
    ensures c.IsCurrentlyActive(now) <==> start <= now <= start + days * Day
  {
  }

  /** The position of the user with a primary key. */
  function FindUserRow(users: seq<User>, userId: int): (r: Option<nat>)
    ensures r.Some? ==> r.value < |users| && users[r.value].id == userId
    ensures r.None? ==> forall i :: 0 <= i < |users| ==> users[i].id != userId
  {
    IndexWhere(users, (u: User) => u.id == userId)
  }

  /** `user_has_campaign`; `None` when the user is not in the table, where
      `scalar_one` raises. */
  function UserHasCampaign(users: seq<User>, userId: int, campaignId: int): (r: Option<bool>)
    ensures r.None? <==> FindUserRow(users, userId).None?
    ensures r.Some? ==> (r.value <==> campaignId in users[FindUserRow(users, userId).value].campaigns)
  {
    match FindUserRow(users, userId)
    case None => None
    case Some(i) => Some(campaignId in users[i].campaigns)
  }

  /** The users after linking a campaign to a user that lacks it. */
  function Activate(users: seq<User>, userId: int, campaignId: int): (r: seq<User>)
    ensures |r| == |users|
    ensures forall i :: 0 <= i < |users| && users[i].id != userId ==> r[i] == users[i]
  {
    match FindUserRow(users, userId)
    case None => users
    case Some(i) =>
      if campaignId in users[i].campaigns then users
      else users[i := users[i].(campaigns := users[i].campaigns + [campaignId])]
  }

  /** After an activation the user has the campaign. */
  lemma ActivatedUserHasCampaign(users: seq<User>, userId: int, campaignId: int)
    requires FindUserRow(users, userId).Some?
    ensures UserHasCampaign(Activate(users, userId, campaignId), userId, campaignId) == Some(true)
  {
    var i := FindUserRow(users, userId).value;
    var after := Activate(users, userId, campaignId);
    IndexWhereCongruent(users, after, (u: User) => u.id == userId, (u: User) => u.id == userId);
    assert after[i].campaigns == users[i].campaigns || after[i].campaigns == users[i].campaigns + [campaignId];
    assert campaignId in after[i].campaigns;
  }

  /** Activation is idempotent: a second one changes nothing. */
  lemma ActivateTwice(users: seq<User>, userId: int, campaignId: int)
    ensures Activate(Activate(users, userId, campaignId), userId, campaignId) == Activate(users, userId, campaignId)
  {
    var after := Activate(users, userId, campaignId);
    if FindUserRow(users, userId).Some? {
      ActivatedUserHasCampaign(users, userId, campaignId);
    } else {
      assert after == users;
    }
  }

  /** `activate_campaign_for_user`: true and the campaign linked when the
      user lacked it, false and nothing changed when the user had it; an
      error when the user is not in the table. */
  method ActivateCampaignForUser(db: Database, userId: int, campaignId: int) returns (r: Result<bool, string>)
    modifies db`users
    ensures r.Err? <==> FindUserRow(old(db.users), userId).None?
    ensures r.Ok? ==> (r.value <==> UserHasCampaign(old(db.users), userId, campaignId) == Some(false))
    ensures db.users == Activate(old(db.users), userId, campaignId)
  {
    var found := FindUserRow(db.users, userId);
    if found.None? {
      return Err("NoResultFound");
    }
    var i := found.value;
    if campaignId in db.users[i].campaigns {
      return Ok(false);
    }
    db.users := db.users[i := db.users[i].(campaigns := db.users[i].campaigns + [campaignId])];
    r := Ok(true);
  }

  function ActiveFilter(now: Instant): Campaign -> bool {
    (c: Campaign) => c.IsCurrentlyActive(now)
  }

  /** `get_active_campaigns`, in table order. */
  function GetActiveCampaigns(campaigns: seq<Campaign>, now: Instant): (r: seq<Campaign>)
    ensures |r| <= |campaigns|
    ensures forall i :: 0 <= i < |r| ==> r[i] in campaigns && r[i].IsCurrentlyActive(now)
  {
    FilterMembers(campaigns, ActiveFilter(now));
    Filter(campaigns, ActiveFilter(now))
  }

  /** The query returns exactly the campaigns the model's own activity test
      accepts at the same instant. */
  lemma ActiveCampaignsAreCurrentlyActive(campaigns: seq<Campaign>, now: Instant)
    ensures forall c :: c in GetActiveCampaigns(campaigns, now) <==> c in campaigns && c.IsCurrentlyActive(now)
  {
    FilterMembers(campaigns, ActiveFilter(now));
  }

  /** The rows of the user-campaign link table for a campaign. */
  function ActivationCount(users: seq<User>, campaignId: int): (n: nat)
    ensures n == 0 <==> forall i :: 0 <= i < |users| ==> campaignId !in users[i].campaigns
    decreases |users|
  {
    if users == [] then 0
    else ActivationCount(users[..|users| - 1], campaignId) + multiset(users[|users| - 1].campaigns)[campaignId]
  }

  /** An activation adds one link row for that campaign; a repeated one adds
      none. */
  lemma {:induction false} ActivationCountAfterActivate(users: seq<User>, userId: int, campaignId: int)
    requires FindUserRow(users, userId).Some?
    ensures var had := UserHasCampaign(users, userId, campaignId).value;
            ActivationCount(Activate(users, userId, campaignId), campaignId)
            == ActivationCount(users, campaignId) + (if had then 0 else 1)
  {
    var i := FindUserRow(users, userId).value;
    if campaignId !in users[i].campaigns {
      var after := Activate(users, userId, campaignId);
      assert after == users[i := users[i].(campaigns := users[i].campaigns + [campaignId])];
      ActivationCountUpdate(users, i, users[i].(campaigns := users[i].campaigns + [campaignId]), campaignId);
    }
  }

  /** Replacing one user row changes the count by the difference of its links. */
  lemma {:induction false} ActivationCountUpdate(users: seq<User>, i: nat, u: User, campaignId: int)
    requires i < |users|
    ensures ActivationCount(users[i := u], campaignId) + multiset(users[i].campaigns)[campaignId]
            == ActivationCount(users, campaignId) + multiset(u.campaigns)[campaignId]
    decreases |users|
  {
    var n := |users| - 1;
    if i < n {
      assert users[i := u][..n] == users[..n][i := u];
      ActivationCountUpdate(users[..n], i, u, campaignId);
    } else {
      assert users[i := u][..n] == users[..n];
    }
  }

  /** `get_campaign_stats`: every campaign code mapped to its number of
      activations, through an outer join so that unused campaigns map to 0. */
  function GetCampaignStats(campaigns: seq<Campaign>, users: seq<User>): (r: map<string, nat>)
    ensures forall code :: code in r <==> exists i :: 0 <= i < |campaigns| && campaigns[i].code == code
    decreases |campaigns|
  {
    if campaigns == [] then map[]
    else
      var n := |campaigns| - 1;
      var before := GetCampaignStats(campaigns[..n], users);
      assert forall i :: 0 <= i < n ==> campaigns[..n][i] == campaigns[i];
      var c := campaigns[n];
      before[c.code := (if c.code in before then before[c.code] else 0) + ActivationCount(users, c.id)]
  }

  /** With unique codes (the table's constraint), each campaign's entry is
      its own activation count. */
  lemma {:induction false} CampaignStatsCounts(campaigns: seq<Campaign>, users: seq<User>)
    requires forall i, j :: 0 <= i < |campaigns| && 0 <= j < |campaigns| && campaigns[i].code == campaigns[j].code ==> i == j
    ensures forall i :: 0 <= i < |campaigns| ==> GetCampaignStats(campaigns, users)[campaigns[i].code] == ActivationCount(users, campaigns[i].id)
    decreases |campaigns|
  {
    if campaigns != [] {
      var n := |campaigns| - 1;
      var prefix := campaigns[..n];
      CampaignStatsCounts(prefix, users);
      var before := GetCampaignStats(prefix, users);
      assert campaigns[n].code !in before;
      forall i | 0 <= i < |campaigns|
        ensures GetCampaignStats(campaigns, users)[campaigns[i].code] == ActivationCount(users, campaigns[i].id)
      {
        if i < n {
          assert prefix[i] == campaigns[i];
          assert campaigns[i].code != campaigns[n].code;
        }
      }
    }
  }
}
