/** The admin panel's REST endpoints that carry logic: the web broadcast,
    the list of known sources, and the partial update of a campaign. */
module WebApi {
  import opened Wrappers
  import opened Seqs
  import opened Strings
  import opened Models
  import opened Store
  import opened Messaging
  import opened CampaignService

  // ---------------------------------------------------------------- broadcast

  /** The body of a broadcast request. */
  datatype BroadcastRequest = BroadcastRequest(
    text: string,
    language: Option<string>,
    source: Option<string>,
    tags: Option<seq<string>>,
    mediaType: Option<string>,
    mediaFileId: Option<string>,
    buttonsJson: Option<string>)

  /** Seconds slept after each successful send. */
  const SendPause: real := 0.05

  /** Whether a user passes the tag joins of the recipient query; how several
      tags combine is left to this parameter. */
  type TagFilter = User -> bool

  /** Uploads a temporary file as the given media type and yields the file id
      Telegram gives it, or `None` when there is no admin chat to upload
      through, the type is neither photo nor video, or the upload raises. */
  type Uploader = (string, string) -> Option<string>

  predicate IsRecipient(u: User, req: BroadcastRequest, tagged: TagFilter) {
    && (Truthy(req.language) ==> u.language == req.language.value)
    && (Truthy(req.source) ==> u.source == Some(req.source.value))
    && (req.tags.Some? && req.tags.value != [] ==> tagged(u))
  }

  function RecipientFilter(req: BroadcastRequest, tagged: TagFilter): User -> bool {
    (u: User) => IsRecipient(u, req, tagged)
  }

  /** The recipient query, in table order. */
  function Recipients(users: seq<User>, req: BroadcastRequest, tagged: TagFilter): (r: seq<User>)
    ensures |r| <= |users|
    ensures forall i :: 0 <= i < |r| ==> IsRecipient(r[i], req, tagged)
  {
    Filter(users, RecipientFilter(req, tagged))
  }

  /** Soundness and completeness of the recipient query: every supplied
      filter holds of a recipient, and every user passing them all is one. */
  lemma RecipientsMembers(users: seq<User>, req: BroadcastRequest, tagged: TagFilter)
    ensures forall u :: u in Recipients(users, req, tagged) <==>
              && u in users
              && (Truthy(req.language) ==> u.language == req.language.value)
              && (Truthy(req.source) ==> u.source == req.source)
              && (req.tags.Some? && req.tags.value != [] ==> tagged(u))
  {
    FilterMembers(users, RecipientFilter(req, tagged));
  }

  /** A request with no filters reaches every user. */
  lemma UnfilteredReachesAll(users: seq<User>, req: BroadcastRequest, tagged: TagFilter)
    requires !Truthy(req.language) && !Truthy(req.source) && (req.tags.None? || req.tags.value == [])
    ensures Recipients(users, req, tagged) == users
  {
    FilterAll(users, RecipientFilter(req, tagged));
  }

  /** The media file id a broadcast sends: a temporary upload path is first
      uploaded; nothing when either the type or the id is unset or empty. */
  function ResolveMedia(mediaType: Option<string>, fileId: Option<string>, upload: Uploader): (r: Option<string>)
    ensures !Truthy(mediaType) || !Truthy(fileId) ==> r.None?
    ensures Truthy(mediaType) && Truthy(fileId) && !StartsWith(fileId.value, "/tmp/") ==> r == fileId
  {
    if Truthy(mediaType) && Truthy(fileId) then
      if StartsWith(fileId.value, "/tmp/") then upload(mediaType.value, fileId.value) else fileId
    else None
  }

  /** The name a details entry shows: the username, else the full name, else
      "User " and the Telegram id. */
  function DisplayName(u: User): (r: string)
    ensures Truthy(u.username) ==> r == u.username.value
    ensures !Truthy(u.username) && Truthy(u.fullName) ==> r == u.fullName.value
    ensures !Truthy(u.username) && !Truthy(u.fullName) ==> r == "User " + IntToDecimal(u.telegramId)
    ensures r != ""
  {
    if Truthy(u.username) then u.username.value
    else if Truthy(u.fullName) then u.fullName.value
    else "User " + IntToDecimal(u.telegramId)
  }

  datatype Status = Success | Error(error: string)

  /** One entry of the response's `details`. */
  datatype Detail = Detail(userId: int, username: string, status: Status)

  /** One recipient: the details entry and the sends and pauses for it. A
      message that is not sent (a media type other than photo or video)
      still counts as a success. */
  function DispatchOne(u: User, position: nat, payload: Option<Payload>, send: Provider): (r: (Detail, seq<Event>))
    ensures r.0.userId == u.telegramId && r.0.username == DisplayName(u)
  {
    match payload
    case None => (Detail(u.telegramId, DisplayName(u), Success), [Pause(SendPause)])
    case Some(p) =>
      var d := Delivery(u.telegramId, p);
      var sent := [Send(Attempt(position, false), d)];
      match send(Attempt(position, false), d)
      case Delivered => (Detail(u.telegramId, DisplayName(u), Success), sent + [Pause(SendPause)])
      case Forbidden(message) => (Detail(u.telegramId, DisplayName(u), Error(message)), sent)
      case BadRequest(message) => (Detail(u.telegramId, DisplayName(u), Error(message)), sent)
      case _ => (Detail(u.telegramId, DisplayName(u), Error("Unknown error")), sent)
  }

  /** What one recipient's entry says: success when nothing is sent or the
      send returns; the error's text for a blocked chat or a rejected
      request; "Unknown error" for anything else. Only a success pauses. */
  lemma DispatchOneOutcome(u: User, position: nat, payload: Option<Payload>, send: Provider)
    ensures var r := DispatchOne(u, position, payload, send);
            && (payload.None? ==> r.0.status == Success && r.1 == [Pause(SendPause)])
            && (payload.Some? ==>
                  var d := Delivery(u.telegramId, payload.value);
                  var outcome := send(Attempt(position, false), d);
                  && (outcome.Delivered? <==> r.0.status == Success)
                  && (outcome.Delivered? ==> r.1 == [Send(Attempt(position, false), d), Pause(SendPause)])
                  && (outcome.Forbidden? || outcome.BadRequest? ==> r.0.status == Error(outcome.message))
                  && (outcome.RetryAfter? || outcome.OtherError? ==> r.0.status == Error("Unknown error"))
                  && (!outcome.Delivered? ==> r.1 == [Send(Attempt(position, false), d)]))
  {
  }

  /** The number of "success" entries. */
  function SuccessEntries(details: seq<Detail>): (n: nat)
    ensures n <= |details|
  {
    if details == [] then 0
    else SuccessEntries(details[..|details| - 1]) + (if details[|details| - 1].status.Success? then 1 else 0)
  }

  datatype Report = Report(total: nat, sent: nat, failed: nat, details: seq<Detail>)

  /** The sending loop over the recipients, as a function of them: the
      report and the sends and pauses, recipient by recipient. */
  function Dispatch(users: seq<User>, payload: Option<Payload>, send: Provider): (r: (Report, seq<Event>))
    ensures |r.0.details| == |users|
    decreases |users|
  {
    if users == [] then (Report(0, 0, 0, []), [])
    else
      var n := |users| - 1;
      var before := Dispatch(users[..n], payload, send);
      var one := DispatchOne(users[n], n, payload, send);
      var details := before.0.details + [one.0];
      if one.0.status.Success? then (Report(|users|, before.0.sent + 1, before.0.failed, details), before.1 + one.1)
      else (Report(|users|, before.0.sent, before.0.failed + 1, details), before.1 + one.1)
  }

  /** The report of the loop: one details entry per recipient, and
      counters that agree with them. */
  lemma {:induction false} DispatchCounts(users: seq<User>, payload: Option<Payload>, send: Provider)
    ensures var r := Dispatch(users, payload, send).0;
            && r.total == |users| && r.sent + r.failed == |users| && |r.details| == |users|
            && r.sent == SuccessEntries(r.details)
    decreases |users|
  {
    if users != [] {
      var n := |users| - 1;
      DispatchCounts(users[..n], payload, send);
      var before := Dispatch(users[..n], payload, send).0.details;
      var details := Dispatch(users, payload, send).0.details;
      assert details[..n] == before;
    }
  }

  /** The entries of the report are the recipients', in order, whatever the
      outcome. */
  lemma {:induction false} DispatchEntries(users: seq<User>, payload: Option<Payload>, send: Provider)
    ensures var details := Dispatch(users, payload, send).0.details;
            && |details| == |users|
            && forall i :: 0 <= i < |users| ==>
                 details[i].userId == users[i].telegramId && details[i].username == DisplayName(users[i])
    decreases |users|
  {
    if users != [] {
      var n := |users| - 1;
      DispatchEntries(users[..n], payload, send);
      var before := Dispatch(users[..n], payload, send).0.details;
      var one := DispatchOne(users[n], n, payload, send).0;
      var details := Dispatch(users, payload, send).0.details;
      assert details == before + [one];
      forall i | 0 <= i < |users|
        ensures details[i].userId == users[i].telegramId && details[i].username == DisplayName(users[i])
      {
        if i < n {
          assert details[i] == before[i] && users[..n][i] == users[i];
        }
      }
    }
  }

  /** `create_broadcast`: nothing is sent to an empty recipient list; a
      buttons column that does not decode raises before any send; otherwise
      every recipient gets the one payload the request describes. */
  function BroadcastResponse(users: seq<User>, req: BroadcastRequest, decode: JsonDecoder, upload: Uploader,
                             tagged: TagFilter, send: Provider): (r: (Result<Report, string>, seq<Event>))
    ensures r.1 != [] ==> r.0.Ok? && Recipients(users, req, tagged) != []
    ensures r.0.Ok? ==> r.0.value.total == |Recipients(users, req, tagged)|
  {
    var recipients := Recipients(users, req, tagged);
    if recipients == [] then (Ok(Report(0, 0, 0, [])), [])
    else match ButtonsKeyboard(req.buttonsJson, decode)
      case Err(e) => (Err(e), [])
      case Ok(keyboard) =>
        var payload := MediaMessage(req.text, req.mediaType, ResolveMedia(req.mediaType, req.mediaFileId, upload), keyboard);
        var d := Dispatch(recipients, payload, send);
        (Ok(d.0), d.1)
  }

  /** The response's promises: with no recipients nothing is sent and every
      counter is 0; a malformed buttons column fails the request before any
      send; otherwise `sent + failed == total`, one entry per recipient in
      order, and as many "success" entries as `sent`. */
  lemma BroadcastResponseConsistent(users: seq<User>, req: BroadcastRequest, decode: JsonDecoder, upload: Uploader,
                                    tagged: TagFilter, send: Provider)
    ensures var recipients := Recipients(users, req, tagged);
            var r := BroadcastResponse(users, req, decode, upload, tagged, send);
            && (recipients == [] ==> r == (Ok(Report(0, 0, 0, [])), []))
            && (recipients != [] && ButtonsKeyboard(req.buttonsJson, decode).Err? ==> r.0.Err? && r.1 == [])
            && (r.0.Ok? ==>
                  && r.0.value.total == |recipients| == |r.0.value.details|
                  && r.0.value.sent + r.0.value.failed == r.0.value.total
                  && r.0.value.sent == SuccessEntries(r.0.value.details)
                  && forall i :: 0 <= i < |recipients| ==> r.0.value.details[i].userId == recipients[i].telegramId)
            && (r.0.Err? ==> Truthy(req.buttonsJson) && recipients != [])
  {
    var keyboard := ButtonsKeyboard(req.buttonsJson, decode);
    if keyboard.Ok? {
      var payload := MediaMessage(req.text, req.mediaType, ResolveMedia(req.mediaType, req.mediaFileId, upload), keyboard.value);
      DispatchCounts(Recipients(users, req, tagged), payload, send);
      DispatchEntries(Recipients(users, req, tagged), payload, send);
    }
  }

  /** The endpoint over the users table. */
  method CreateBroadcast(db: Database, req: BroadcastRequest, decode: JsonDecoder, upload: Uploader,
                         tagged: TagFilter, send: Provider)
    returns (r: Result<Report, string>, events: seq<Event>)
    ensures (r, events) == BroadcastResponse(db.users, req, decode, upload, tagged, send)
  {
    var recipients := Recipients(db.users, req, tagged);
    if recipients == [] {
      return Ok(Report(0, 0, 0, [])), [];
    }
    var keyboard := ButtonsKeyboard(req.buttonsJson, decode);
    if keyboard.Err? {
      return Err(keyboard.error), [];
    }
    var media := ResolveMedia(req.mediaType, req.mediaFileId, upload);
    var payload := MediaMessage(req.text, req.mediaType, media, keyboard.value);
    var report;
    report, events := SendToRecipients(recipients, payload, send);
    r := Ok(report);
  }

  /** The loop over one more recipient. */
  lemma DispatchStep(users: seq<User>, n: nat, payload: Option<Payload>, send: Provider)
    requires n < |users|
    ensures var before := Dispatch(users[..n], payload, send);
            var one := DispatchOne(users[n], n, payload, send);
            var success := one.0.status.Success?;
            Dispatch(users[..n + 1], payload, send)
            == (Report(n + 1, before.0.sent + (if success then 1 else 0), before.0.failed + (if success then 0 else 1),
                       before.0.details + [one.0]),
                before.1 + one.1)
  {
    assert users[..n + 1][..n] == users[..n];
  }

  /** The `try` block for one recipient and its two `except` clauses. */
  method SendOne(u: User, position: nat, payload: Option<Payload>, send: Provider) returns (entry: Detail, steps: seq<Event>)
    ensures (entry, steps) == DispatchOne(u, position, payload, send)
  {
    var status: Status;
    if payload.None? {
      status, steps := Success, [Pause(SendPause)];
    } else {
      var d := Delivery(u.telegramId, payload.value);
      steps := [Send(Attempt(position, false), d)];
      var outcome := send(Attempt(position, false), d);
      match outcome {
        case Delivered =>
          status := Success;
          steps := steps + [Pause(SendPause)];
        case Forbidden(message) =>
          status := Error(message);
        case BadRequest(message) =>
          status := Error(message);
        case _ =>
          status := Error("Unknown error");
      }
    }
    entry := Detail(u.telegramId, DisplayName(u), status);
  }

  /** The sending loop of `create_broadcast`: a failed send is recorded and
      the loop goes on. */
  method SendToRecipients(recipients: seq<User>, payload: Option<Payload>, send: Provider)
    returns (report: Report, events: seq<Event>)
    ensures (report, events) == Dispatch(recipients, payload, send)
  {
    var sent, failed := 0, 0;
    var details: seq<Detail> := [];
    events := [];
    var i := 0;
    while i < |recipients|
      invariant 0 <= i <= |recipients|
      invariant (Report(i, sent, failed, details), events) == Dispatch(recipients[..i], payload, send)
    {
      DispatchStep(recipients, i, payload, send);
      var entry, steps := SendOne(recipients[i], i, payload, send);
      if entry.status.Success? {
        sent := sent + 1;
      } else {
        failed := failed + 1;
      }
      details := details + [entry];
      events := events + steps;
      assert (Report(i + 1, sent, failed, details), events) == Dispatch(recipients[..i + 1], payload, send);
      i := i + 1;
    }
    assert recipients[..i] == recipients;
    report := Report(i, sent, failed, details);
  }

  // ------------------------------------------------------------------ sources

  /** A campaign code as a source: prefixed with "offer_" unless it already
      is. */
  function OfferSource(code: string): (r: string)
    ensures StartsWith(r, "offer_")
    ensures StartsWith(code, "offer_") ==> r == code
  {
    if StartsWith(code, "offer_") then code else "offer_" + code
  }

  /** The prefix is never doubled. */
  lemma OfferSourceIdempotent(code: string)
    ensures OfferSource(OfferSource(code)) == OfferSource(code)
  {
  }

  /** The non-empty sources of the users. */
  function UserSources(users: seq<User>): (r: seq<string>)
    ensures forall s :: s in r <==> exists i :: 0 <= i < |users| && Truthy(users[i].source) && users[i].source.value == s
    decreases |users|
  {
    if users == [] then []
    else
      var n := |users| - 1;
      var before := UserSources(users[..n]);
      assert forall i :: 0 <= i < n ==> users[..n][i] == users[i];
      before + (if Truthy(users[n].source) then [users[n].source.value] else [])
  }

  /** The sources of the switched-on campaigns (whatever their dates). */
  function CampaignSources(campaigns: seq<Campaign>): (r: seq<string>)
    ensures forall s :: s in r <==> exists i :: 0 <= i < |campaigns| && campaigns[i].isActive && OfferSource(campaigns[i].code) == s
    decreases |campaigns|
  {
    if campaigns == [] then []
    else
      var n := |campaigns| - 1;
      var before := CampaignSources(campaigns[..n]);
      assert forall i :: 0 <= i < n ==> campaigns[..n][i] == campaigns[i];
      before + (if campaigns[n].isActive then [OfferSource(campaigns[n].code)] else [])
  }

  /** `get_sources`: sorted and free of duplicates, always with "direct". */
  function GetSources(users: seq<User>, campaigns: seq<Campaign>): (r: seq<string>)
    ensures StrictlySorted(r)
    ensures "direct" in r
    ensures forall s :: s in r <==>
              || s == "direct"
              || (exists i :: 0 <= i < |users| && Truthy(users[i].source) && users[i].source.value == s)
              || (exists i :: 0 <= i < |campaigns| && campaigns[i].isActive && OfferSource(campaigns[i].code) == s)
  {
    SortedUnique(UserSources(users) + CampaignSources(campaigns) + ["direct"])
  }

  // ---------------------------------------------------------- campaign update

  /** The body of a campaign update: `None` leaves a field alone. */
  datatype CampaignUpdate = CampaignUpdate(
    title: Option<string>,
    description: Option<string>,
    messagePt: Option<string>,
    messageHu: Option<string>,
    messageEn: Option<string>,
    isActive: Option<bool>,
    mediaType: Option<string>,
    mediaFileId: Option<string>,
    buttonsJson: Option<string>)

  /** Turns a temporary upload path into a Telegram file id, given the
      requested media type. It stands for the whole conversion: the path is
      kept when there is no admin chat or the type is neither photo nor
      video, and `None` is the conversion raising. */
  type MediaConverter = (Option<string>, string) -> Option<string>

  /** The file id an update stores, when it supplies one. */
  function UpdatedFileId(fileId: string, mediaType: Option<string>, convert: MediaConverter): Option<string> {
    if fileId != "" && StartsWith(fileId, "/tmp/") then convert(mediaType, fileId) else Some(fileId)
  }

  /** Which of two values a partial update leaves. */
  function Pick<T>(update: Option<T>, current: T): (r: T)
    ensures update.Some? ==> r == update.value
    ensures update.None? ==> r == current
  {
    if update.Some? then update.value else current
  }

  /** The campaign after an update: each supplied field replaced, the
      others kept, and the media type cleared when the stored file id ends
      up unset or empty. */
  function ApplyUpdate(c: Campaign, u: CampaignUpdate, convert: MediaConverter): (r: Campaign)
    ensures r.id == c.id && r.code == c.code && r.activeFrom == c.activeFrom && r.activeTo == c.activeTo
    ensures r.language == c.language && r.createdAt == c.createdAt
    ensures r.title == Pick(u.title, c.title) && r.isActive == Pick(u.isActive, c.isActive)
    ensures r.description == (if u.description.Some? then u.description else c.description)
    ensures r.messages.pt == (if u.messagePt.Some? then u.messagePt else c.messages.pt)
    ensures r.messages.hu == (if u.messageHu.Some? then u.messageHu else c.messages.hu)
    ensures r.messages.en == (if u.messageEn.Some? then u.messageEn else c.messages.en)
    ensures r.buttonsJson == (if u.buttonsJson.Some? then u.buttonsJson else c.buttonsJson)
    ensures u.mediaFileId.None? ==> r.mediaFileId == c.mediaFileId
    ensures u.mediaFileId.Some? ==> r.mediaFileId == UpdatedFileId(u.mediaFileId.value, u.mediaType, convert)
    ensures u.mediaFileId.Some? && !Truthy(r.mediaFileId) ==> r.mediaType.None?
    ensures !(u.mediaFileId.Some? && !Truthy(r.mediaFileId)) ==>
              r.mediaType == (if u.mediaType.Some? then u.mediaType else c.mediaType)
  {
    var messages := Messages(if u.messagePt.Some? then u.messagePt else c.messages.pt,
                             if u.messageHu.Some? then u.messageHu else c.messages.hu,
                             if u.messageEn.Some? then u.messageEn else c.messages.en);
    var mediaType := if u.mediaType.Some? then u.mediaType else c.mediaType;
    var fileId := if u.mediaFileId.Some? then UpdatedFileId(u.mediaFileId.value, u.mediaType, convert) else c.mediaFileId;
    var mediaType' := if u.mediaFileId.Some? && !Truthy(fileId) then None else mediaType;
    c.(title := Pick(u.title, c.title),
       description := if u.description.Some? then u.description else c.description,
       messages := messages,
       isActive := Pick(u.isActive, c.isActive),
       mediaType := mediaType',
       mediaFileId := fileId,
       buttonsJson := if u.buttonsJson.Some? then u.buttonsJson else c.buttonsJson)
  }

  /** An update that supplies nothing changes nothing. */
  lemma EmptyUpdateKeepsCampaign(c: Campaign, convert: MediaConverter)
    ensures ApplyUpdate(c, CampaignUpdate(None, None, None, None, None, None, None, None, None), convert) == c
  {
  }

  /** Sending the same update twice has the effect of sending it once. */
  lemma UpdateIdempotent(c: Campaign, u: CampaignUpdate, convert: MediaConverter)
    ensures ApplyUpdate(ApplyUpdate(c, u, convert), u, convert) == ApplyUpdate(c, u, convert)
  {
  }

  /** The response of a campaign endpoint: the row and its activations. */
  datatype CampaignView = CampaignView(campaign: Campaign, activations: nat)

  /** `update_campaign`: 404 for an unknown code; otherwise the updated
      campaign in place of the old one, with its activation count. */
  method UpdateCampaign(db: Database, code: string, u: CampaignUpdate, convert: MediaConverter) returns (r: Result<CampaignView, int>)
    requires db.Valid()
    modifies db`campaigns
    ensures db.Valid()
    ensures r.Err? <==> FindCampaign(old(db.campaigns), code).None?
    ensures r.Err? ==> r.error == 404 && db.campaigns == old(db.campaigns)
    ensures r.Ok? ==>
              var i := FindCampaign(old(db.campaigns), code).value;
              && db.campaigns == old(db.campaigns)[i := ApplyUpdate(old(db.campaigns)[i], u, convert)]
              && r.value == CampaignView(db.campaigns[i], ActivationCount(db.users, db.campaigns[i].id))
  {
    var found := FindCampaign(db.campaigns, code);
    if found.None? {
      return Err(404);
    }
    var i := found.value;
    var updated := ApplyUpdate(db.campaigns[i], u, convert);
    db.campaigns := db.campaigns[i := updated];
    r := Ok(CampaignView(updated, ActivationCount(db.users, updated.id)));
  }
}
