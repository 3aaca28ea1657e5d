/** The `/start` command and the offer flow: reading the start payload,
    routing it to a traffic source or a campaign, the subscription check,
    and the order of checks before an offer is activated. Telegram itself
    (the chat member lookup, the replies) is not modelled: its answers are
    parameters. */
module StartHandler {
  import opened Wrappers
  import opened Seqs
  import opened Strings
  import opened Models
  import opened Store
  import opened Messaging
  import opened UserService
  import opened CampaignService

  /** The prefix that marks a start payload as a campaign code. */
  const OfferPrefix: string := "offer_"

  /** The payload of a `/start` message: what follows the command after the
      first run of whitespace (`split(maxsplit=1)`), if anything does. */
  function StartPayload(text: string): (r: Option<string>)
    ensures r.None? <==> |SplitOnce(text)| < 2
    ensures r.Some? ==> r.value != [] && !IsSpace(r.value[0]) && EndsWith(text, r.value)
  {
    var args := SplitOnce(text);
    if |args| > 1 then Some(args[1]) else None
  }

  /** The payload a start link carries comes back whole. */
  lemma StartPayloadOfLink(command: string, payload: string)
    requires command != [] && forall i :: 0 <= i < |command| ==> !IsSpace(command[i])
    requires payload != [] && !IsSpace(payload[0])
    ensures StartPayload(command + " " + payload) == Some(payload)
  {
    SplitOnceWords(command, " ", payload);
  }

  /** A bare command has no payload. */
  lemma BareCommandHasNoPayload(command: string)
    requires command != [] && forall i :: 0 <= i < |command| ==> !IsSpace(command[i])
    ensures StartPayload(command) == None
  {
    assert command + [] == command;
    LeadingWordOf(command, []);
  }

  /** Where a start came from: the traffic source to tag the user with, and
      the campaign to offer. */
  datatype Route = Route(source: Option<string>, campaignCode: Option<string>)

  /** An "offer_" payload is both the campaign code and the source; any other
      payload is only the source; no payload is neither. */
  function RouteOf(payload: Option<string>): (r: Route)
    ensures !Truthy(payload) ==> r == Route(None, None)
    ensures Truthy(payload) ==> r.source == payload
    ensures r.campaignCode.Some? <==> Truthy(payload) && StartsWith(payload.value, OfferPrefix)
    ensures r.campaignCode.Some? ==> r.campaignCode == payload
  {
    match payload
    case None => Route(None, None)
    case Some(p) =>
      if p == "" then Route(None, None)
      else if StartsWith(p, OfferPrefix) then Route(Some(p), Some(p))
      else Route(Some(p), None)
  }

  /** The statuses that count as subscribed. */
  const SubscribedStatuses: set<string> := {"member", "administrator", "creator"}

  /** `check_subscription`. `status` is the chat member lookup: the member's
      status, or the error it raised. No required channel means no check. */
  function CheckSubscription(requiredChannel: string, status: Result<string, string>): (r: bool)
    ensures requiredChannel == "" ==> r
    ensures requiredChannel != "" && status.Err? ==> !r
    ensures requiredChannel != "" && status.Ok? ==> (r <==> status.value in SubscribedStatuses)
  {
    if requiredChannel == "" then true
    else match status
      case Err(_) => false
      case Ok(s) => s in SubscribedStatuses
  }

  /** What `send_campaign_message` sends: nothing when the campaign has no
      text for the language (nor in English), the media switch otherwise,
      with a keyboard from the buttons column when it can be built. */
  function CampaignMessage(c: Campaign, language: string, decode: JsonDecoder): (r: Option<Payload>)
    ensures c.GetMessage(language) == "" ==> r.None?
    ensures r.Some? ==> !r.value.DocumentMessage? && r.value.html && r.value.keyboard == KeyboardOrNone(c.buttonsJson, decode)
    ensures r.Some? && r.value.TextMessage? ==> r.value.text == c.GetMessage(language)
    ensures r.Some? && !r.value.TextMessage? ==> r.value.caption == Some(c.GetMessage(language))
    ensures c.GetMessage(language) != "" ==>
              (r.None? <==> Truthy(c.mediaType) && Truthy(c.mediaFileId) &&
                            c.mediaType.value != "photo" && c.mediaType.value != "video")
  {
    var text := c.GetMessage(language);
    if text == "" then None
    else MediaMessage(text, c.mediaType, c.mediaFileId, KeyboardOrNone(c.buttonsJson, decode))
  }

  /** How an offer start ends. */
  datatype CampaignReply = OfferExpired | OfferAlreadyActivated | Activated(campaign: Campaign)

  /** The checks of `handle_campaign`, in order: an unknown code and a
      campaign that is not currently active both read as expired; a user who
      already has the campaign is told so; anyone else gets it. An error
      when the user is not in the table. */
  function CampaignDecision(campaigns: seq<Campaign>, users: seq<User>, userId: int, code: string, now: Instant): (r: Result<CampaignReply, string>)
    ensures GetCampaignByCode(campaigns, code).None? ==> r == Ok(OfferExpired)
    ensures GetCampaignByCode(campaigns, code).Some? && !GetCampaignByCode(campaigns, code).value.IsCurrentlyActive(now) ==>
              r == Ok(OfferExpired)
    ensures r == Ok(OfferAlreadyActivated) <==>
              && GetCampaignByCode(campaigns, code).Some?
              && GetCampaignByCode(campaigns, code).value.IsCurrentlyActive(now)
              && UserHasCampaign(users, userId, GetCampaignByCode(campaigns, code).value.id) == Some(true)
    ensures r.Ok? && r.value.Activated? <==>
              && GetCampaignByCode(campaigns, code).Some?
              && GetCampaignByCode(campaigns, code).value.IsCurrentlyActive(now)
              && UserHasCampaign(users, userId, GetCampaignByCode(campaigns, code).value.id) == Some(false)
    ensures r.Ok? && r.value.Activated? ==> r.value.campaign == GetCampaignByCode(campaigns, code).value
  {
    match GetCampaignByCode(campaigns, code)
    case None => Ok(OfferExpired)
    case Some(c) =>
      if !c.IsCurrentlyActive(now) then Ok(OfferExpired)
      else match UserHasCampaign(users, userId, c.id)
        case None => Err("NoResultFound")
        case Some(true) => Ok(OfferAlreadyActivated)
        case Some(false) => Ok(Activated(c))
  }

  /** A second start with the same offer finds it already activated. */
  lemma SecondActivationIsRefused(campaigns: seq<Campaign>, users: seq<User>, userId: int, code: string, now: Instant)
    requires CampaignDecision(campaigns, users, userId, code, now).Ok?
    requires CampaignDecision(campaigns, users, userId, code, now).value.Activated?
    ensures var c := GetCampaignByCode(campaigns, code).value;
      CampaignDecision(campaigns, TagUser(Activate(users, userId, c.id), userId, code), userId, code, now) == Ok(OfferAlreadyActivated)
  {
    var c := GetCampaignByCode(campaigns, code).value;
    var activated := Activate(users, userId, c.id);
    var tagged := TagUser(activated, userId, code);
    ActivatedUserHasCampaign(users, userId, c.id);
    var i := FindUserRow(activated, userId).value;
    IndexWhereCongruent(activated, tagged, (u: User) => u.id == userId, (u: User) => u.id == userId);
    assert tagged[i].campaigns == activated[i].campaigns;
  }

  /** `handle_campaign`: the decision, then for an activation the campaign
      is linked, the user tagged with the code, and the campaign message
      built; every other outcome changes nothing and sends only a reply. */
  method HandleCampaign(db: Database, userId: int, code: string, now: Instant, language: string, decode: JsonDecoder)
    returns (reply: Result<CampaignReply, string>, message: Option<Payload>)
    requires db.Valid()
    modifies db`users, db`tags
    ensures db.Valid()
    ensures reply == CampaignDecision(old(db.campaigns), old(db.users), userId, code, now)
    ensures reply.Ok? && reply.value.Activated? ==>
              && db.users == TagUser(Activate(old(db.users), userId, reply.value.campaign.id), userId, code)
              && db.tags == EnsureTag(old(db.tags), code)
              && message == CampaignMessage(reply.value.campaign, language, decode)
    ensures !(reply.Ok? && reply.value.Activated?) ==>
              db.users == old(db.users) && db.tags == old(db.tags) && message.None?
  {
    reply := CampaignDecision(db.campaigns, db.users, userId, code, now);
    message := None;
    if !(reply.Ok? && reply.value.Activated?) {
      return;
    }
    var c := reply.value.campaign;
    var i := FindUserRow(db.users, userId).value;
    ghost var before := db.users;
    var linked := ActivateCampaignForUser(db, userId, c.id);
    assert db.users == before[i := before[i].(campaigns := before[i].campaigns + [c.id])];
    ReplaceUserKeepsKeys(before, i, before[i].(campaigns := before[i].campaigns + [c.id]));
    assert FindUserById(db.users, userId).Some? by {
      assert db.users[i].id == userId;
    }
    var tagged := AddTagToUser(db, userId, code);
    message := CampaignMessage(c, language, decode);
  }

  /** What `/start` answers: a new user picks a language first (the route
      is kept for later); a known user is asked to subscribe, with the
      campaign code kept for the subscription check. */
  datatype StartReply = ChooseLanguage(route: Route) | AskToSubscribe(user: User, campaignCode: Option<string>)

  /** `cmd_start`. A known user is refreshed and, when the start has a
      source, tagged with it; an unknown user is not stored yet. */
  method CmdStart(db: Database, telegramId: int, username: Option<string>, fullName: Option<string>,
                  text: string, now: Instant, registrationDate: string)
    returns (reply: StartReply)
    requires db.Valid()
    modifies db`users, db`tags
    ensures db.Valid()
    ensures FindUser(old(db.users), telegramId).None? ==>
              && reply == ChooseLanguage(RouteOf(StartPayload(text)))
              && db.users == old(db.users) && db.tags == old(db.tags)
    ensures FindUser(old(db.users), telegramId).Some? ==>
              var i := FindUser(old(db.users), telegramId).value;
              var refreshed := old(db.users)[i := Refresh(old(db.users)[i], username, fullName, now)];
              var route := RouteOf(StartPayload(text));
              && reply.AskToSubscribe?
              && reply.campaignCode == route.campaignCode
              && (route.source.Some? ==>
                    db.users == TagUser(refreshed, old(db.users)[i].id, route.source.value) &&
                    db.tags == EnsureTag(old(db.tags), route.source.value))
              && (route.source.None? ==> db.users == refreshed && db.tags == old(db.tags))
  {
    var route := RouteOf(StartPayload(text));
    var existing := FindUser(db.users, telegramId);
    if existing.None? {
      return ChooseLanguage(route);
    }
    var language := db.users[existing.value].language;
    var user, isNew := GetOrCreateUser(db, telegramId, username, fullName, route.source, language, now, registrationDate);
    if route.source.Some? && !isNew {
      var i := existing.value;
      assert db.users[i].id == user.id;
      var tagged := AddTagToUser(db, user.id, route.source.value);
    }
    reply := AskToSubscribe(user, route.campaignCode);
  }

  /** The language a "lang_" callback selects: the second "_"-separated
      field of the callback data. */
  function CallbackLanguage(data: string): (r: Option<string>)
    ensures r.Some? ==> '_' !in r.value
    ensures r.None? <==> '_' !in data
  {
    var parts := Split(data, '_');
    if |parts| > 1 then Some(parts[1])
    else
      assert IndexOf(data, '_').None?;
      None
  }
}
