# campaign-bot, modelled in Dafny

campaign-bot is a Telegram marketing bot with a web admin panel. Users arrive
through `/start` links that carry a traffic source or an offer ("campaign")
code. They pick a language and are asked to join a channel. Offers are
activated at most once per user. Admins send broadcasts to segments of users.
A background task sends delayed "auto messages" to users who registered a
set number of minutes earlier. Texts are localised from a database cache,
and built-in defaults are the fallback.

This project models that core in Dafny and proves properties of the model.

## Modelling choices

- **The database** is `Store.Database`, a class with one `seq` of rows per
  table. Services read these fields and reassign them. `Database.Valid` holds
  the schema's primary keys and `unique=True` columns.
- **Rows** are datatypes in `Models`.
- **Time** is an `Instant`: an integer number of microseconds. Callers pass
  in `now`, and the civil date strings `strftime` would produce.
- **Telegram.** Every Bot API call is answered by a `Provider` function. The
  provider maps a send (the recipient's position in the loop, and whether
  this is a retry) to one outcome: delivered, Forbidden, BadRequest,
  RetryAfter(n), or another error.
- **Sending loops** record what they do as `Event`s: sends, and pauses for
  the source's `asyncio.sleep` calls.
- **Foreign code as parameters.** `json.loads` of a buttons column,
  base64+UTF-8 decoding, `str.format`, the media converter and the uploader
  are all function parameters.
- **Module-level caches** become small classes whose setter replaces the
  whole cache: `Locales.LocaleCache`, `TextService.TextCache`,
  `Keyboards.LanguagesCache`.
- **Backup files** are a directory: a sequence of (name, contents) pairs.
  This lives in `Backup.BackupDisk`.

## Model

| member | source | states |
|---|---|---|
| Models.Messages.Get | models.py:118-125 | the message in the requested language if non-empty, else the English one if non-empty, else ""; the result is "" exactly when both are missing or empty (shared by `AutoMessage.get_message` and `Campaign.get_message`, models.py:218-225) |
| Models.UnknownLanguageGetsEnglish | models.py:220-225 | a language other than pt/hu/en always gets the English message or "" |
| Models.Campaign.IsCurrentlyActive | models.py:227-239 | active iff switched on, `active_from <= now`, and `active_to` unset or `now <= active_to` (both bounds inclusive) |
| Models.SwitchedOffNeverActive | models.py:229-230 | a campaign with `is_active` false is never currently active |
| Store.Database.constructor | models.py:32-186 | an empty database satisfies every key constraint of the schema |
| Store.FindUser | services/user_service.py:27-30 | finds the row with a telegram id, or shows that no row has it |
| Store.FindUserById | services/campaign_service.py:79-84 | finds the row with a primary key, or shows that no row has it |
| AutoMessageService.Candidates | services/auto_message_service.py:71-94 | the selection query returns only users in the ±5-minute window of `now - delay` that match the rule's filters |
| AutoMessageService.Eligible | services/auto_message_service.py:71-112 | every user the rule should reach is in the window, matches the filters and has no sent row for the rule |
| AutoMessageService.EligibleMembers | services/auto_message_service.py:71-112 | a user is selected iff they are in the users table, `created_at` lies in the closed ±5-minute window around `now - delay`, they match every set target filter, and no sent row exists for (user, rule) |
| AutoMessageService.EligibleAreUnsentCandidates | services/auto_message_service.py:94-112 | the selection is the window-and-filter query result, in query order, minus users with a sent row |
| AutoMessageService.GetUsersForAutoMessage | services/auto_message_service.py:59-112 | the dedupe loop raises (as `scalar_one_or_none` does) iff a candidate has two sent rows for the rule; otherwise it returns exactly the eligible users in order, and it changes nothing |
| AutoMessageService.SelectionStep | services/auto_message_service.py:97-110 | one loop iteration appends the candidate iff it has no sent row |
| AutoMessageService.Selection | services/auto_message_service.py:94-112 | a successful selection is the query result minus the users with a sent row; a failed one has a candidate with two sent rows |
| AutoMessageService.SelectionSucceedsWithoutDuplicates | services/auto_message_service.py:97-112 | with at most one sent row per (user, rule), selection never raises and yields the eligible users |
| AutoMessageService.MarkAsSent | services/auto_message_service.py:115-126 | appends exactly one sent row and changes nothing else |
| AutoMessageService.SentCountSnoc | services/auto_message_service.py:115-126 | an appended row raises the count of its own (user, rule) pair by one and leaves every other pair's count alone |
| AutoMessageService.MarkedUserNeverSelectedAgain | services/auto_message_service.py:97-126 | after `mark_as_sent`, the user is absent from every later selection for that rule, at any time |
| AutoMessageService.OtherRuleRowKeepsSelection | services/auto_message_service.py:97-110 | a sent row for another rule does not change this rule's selection |
| AutoMessageService.FindAutoMessage | services/auto_message_service.py:51-56 | returns a rule with the id, or None exactly when no rule has it |
| AutoMessageService.GetAllAutoMessages | services/auto_message_service.py:43-48 | the rules sorted by `delay_minutes` ascending, as a permutation of the table |
| AutoMessageService.CreateAutoMessage | services/auto_message_service.py:15-40 | appends one active rule with the given fields, no media and no buttons, and a fresh id |
| AutoMessageService.Toggle | services/auto_message_service.py:129-136 | the first rule with the id has its `is_active` negated and nothing else of it changes; every rule with another id is kept as it was; an unknown id leaves the table unchanged |
| AutoMessageService.ToggleTwice | services/auto_message_service.py:129-136 | toggling twice restores the table |
| AutoMessageService.ToggleAutoMessage | services/auto_message_service.py:129-136 | flips the rule's flag and returns it; for an unknown id it returns None and the table is unchanged |
| AutoMessageService.DeleteAutoMessage | services/auto_message_service.py:139-146 | returns true iff the id existed; afterwards no rule has that id and every other rule is kept in order |
| Messaging.UrlRows | tasks/auto_sender.py:31-34 | one row holding one URL button per decoded entry, in order; fails iff an entry lacks "text" or "url" |
| Messaging.ButtonsKeyboard | web/api.py:577-583 | no keyboard for an empty column; otherwise a keyboard iff the JSON decodes to entries that all have text and url, and an error otherwise |
| Messaging.KeyboardOrNone | tasks/auto_sender.py:26-36 | a decoding or building error gives no keyboard instead of an error |
| Messaging.MediaMessage | tasks/auto_sender.py:38-62 | photo iff the media type is "photo" and a file id is set; video likewise for "video"; text when either is unset; nothing for any other media type. Always HTML with the given keyboard |
| AutoSender.AutoMessagePayload | tasks/auto_sender.py:20-62 | nothing is sent when the localised text is empty; otherwise the media switch with the rule's keyboard, or no keyboard when the buttons fail |
| AutoSender.HandleUser | tasks/auto_sender.py:82-90 | the (user, rule) row is logged iff the send did not raise, which includes an early return that sent nothing; the message goes to the provider iff there is a payload |
| AutoSender.HandleUsers | tasks/auto_sender.py:82-90 | every selected user is handled once; the log only grows, by at most one row per user; at most one message per user goes out |
| AutoSender.HandleRule | tasks/auto_sender.py:76-90 | a rule keeps the earlier log as a prefix; when the pass goes on, exactly the rule's eligible users were handled |
| AutoSender.HandleRules | tasks/auto_sender.py:73-90 | a pass keeps the log it started with as a prefix and never sends more messages than users it handled |
| AutoSender.ActiveRules | tasks/auto_sender.py:73-74 | exactly the active rules, sorted by `delay_minutes` |
| AutoSender.HandleRulesStep | tasks/auto_sender.py:76-90 | a pass that has not raised handles the next active rule after the ones before it |
| AutoSender.FailedPassStaysFailed | tasks/auto_sender.py:71-96 | once a rule's selection raises, the rest of the pass is skipped |
| AutoSender.HandleUsersKeepsFailed | tasks/auto_sender.py:82-90 | a raising send never ends the user loop: the pass keeps going |
| AutoSender.SendToUsers | tasks/auto_sender.py:82-90 | the user loop leaves exactly the log and the deliveries of the specification |
| AutoSender.RunPass | tasks/auto_sender.py:72-90 | one pass processes only the active rules, by `delay_minutes`, shortest first, and leaves the log and deliveries of `HandleRules`; it completes iff no selection raised |
| AutoSender.HandleUsersRows | tasks/auto_sender.py:82-90 | over distinct users, a rule's loop adds at most one row per (user, that rule) and none for other rules |
| AutoSender.HandleRuleKeepsAtMostOnce | tasks/auto_sender.py:76-90 | starting from at most one row per pair, a rule's loop cannot raise and keeps at most one row per pair |
| AutoSender.PassKeepsAtMostOnce | tasks/auto_sender.py:72-90 | by induction over the rules, a whole pass keeps at most one sent row per (user, rule) and never raises |
| AutoSender.Run | tasks/auto_sender.py:65-96 | the `while True` loop over a finite list of clock readings leaves the log and the sleeps of `Schedule` |
| AutoSender.Schedule | tasks/auto_sender.py:70-96 | one pause per pass, each 300 or 60 seconds, and the log only grows |
| AutoSender.ScheduleNeverRaises | tasks/auto_sender.py:70-96 | from a duplicate-free log, every pass completes and is followed by the 300-second sleep, and the log stays duplicate-free |
| AutoSender.SomePollInWindow | tasks/auto_sender.py:92 | polls spaced no wider than a window, and spanning it, hit it at least once |
| AutoSender.UserSeenByDensePolls | services/auto_message_service.py:71-84 | polls at most 10 minutes apart that span a user's window see that user inside the window at least once |
| BroadcastService.Or | services/broadcast_service.py:45 | Python `a or b` on nullable text |
| BroadcastService.FirstPayload | services/broadcast_service.py:40-66 | photo first (its largest size), else video, else document, else text; media carry `caption or text` and text carries `text or caption or ""` |
| BroadcastService.RetryPayload | services/broadcast_service.py:76-87 | the retry sends only a photo or text; a video or document is retried as `text or ""` |
| BroadcastService.SendToUser | services/broadcast_service.py:37-103 | success iff the first send is delivered, or it hit RetryAfter and the single retry is delivered; RetryAfter sleeps its seconds before the retry; every user ends with the `delay` sleep |
| BroadcastService.Broadcast | services/broadcast_service.py:34-105 | success + failed equals the number of users |
| BroadcastService.SendBroadcast | services/broadcast_service.py:16-105 | the counter loop returns the counts and events of the specification |
| BroadcastService.SendsAppend | services/broadcast_service.py:37-103 | the sends of two event runs are the sends of each, in order |
| BroadcastService.UserSends | services/broadcast_service.py:71-91 | a user gets one send, or two when the first hit RetryAfter; never a third |
| BroadcastService.BroadcastSendsInOrder | services/broadcast_service.py:37 | users are attempted in list order, each with at most one retry |
| BroadcastService.BlockedUserFailsWithoutRetry | services/broadcast_service.py:93-100 | Forbidden or any other error counts as failed with no retry |
| WebApi.Recipients | web/api.py:550-562 | every recipient passes each supplied filter, and there are no more recipients than users |
| WebApi.RecipientsMembers | web/api.py:550-559 | a user is a recipient iff they match every supplied language and source filter, and the tag filter when tags are given |
| WebApi.UnfilteredReachesAll | web/api.py:550-562 | with no filters every user is a recipient, in order |
| WebApi.ResolveMedia | web/api.py:586-611 | no media unless both type and file id are set; a file id not under /tmp/ is used as it is |
| WebApi.DisplayName | web/api.py:648 | `username`, else `full_name`, else "User <telegram_id>"; never empty |
| WebApi.DispatchOne | web/api.py:618-671 | one entry per recipient, carrying their telegram id and display name |
| WebApi.DispatchOneOutcome | web/api.py:618-671 | success iff delivered (then the 0.05 s sleep); Forbidden/BadRequest give the error text, anything else gives "Unknown error"; no retry |
| WebApi.SuccessEntries | web/api.py:646-650 | never more success entries than entries |
| WebApi.Dispatch | web/api.py:614-682 | the report has one details entry per recipient (the counters are stated by `DispatchCounts`) |
| WebApi.DispatchCounts | web/api.py:614-682 | total == sent + failed == number of recipients == number of entries, and sent equals the number of "success" entries |
| WebApi.DispatchEntries | web/api.py:646-668 | entry i belongs to recipient i |
| WebApi.DispatchStep | web/api.py:618-671 | one loop iteration appends one entry and bumps exactly one counter |
| WebApi.BroadcastResponse | web/api.py:540-682 | a message goes out only for an accepted request with recipients, and an accepted report's total is the number of recipients |
| WebApi.BroadcastResponseConsistent | web/api.py:540-682 | no recipients gives the all-zero report with no sends; malformed buttons raise before any send; otherwise the counts are consistent and follow recipient order |
| WebApi.CreateBroadcast | web/api.py:540-682 | the endpoint returns the response and the event trace of the specification |
| WebApi.SendOne | web/api.py:619-671 | one iteration's entry and events are those of `DispatchOne` |
| WebApi.SendToRecipients | web/api.py:614-671 | the loop's report and events are those of `Dispatch` |
| WebApi.OfferSource | web/api.py:528-529 | the result starts with "offer_", and a code that already does is kept as it is (never doubled) |
| WebApi.OfferSourceIdempotent | web/api.py:528-529 | prefixing twice is prefixing once |
| WebApi.UserSources | web/api.py:519-522 | exactly the non-empty sources of users |
| WebApi.CampaignSources | web/api.py:525-529 | exactly the prefixed codes of active campaigns |
| WebApi.GetSources | web/api.py:514-535 | strictly sorted (so duplicate-free), always holds "direct", and holds exactly the user sources, the active campaigns' offer sources and "direct" |
| WebApi.Pick | web/api.py:316-329 | a supplied field replaces the current value; an absent one keeps it |
| WebApi.ApplyUpdate | web/api.py:316-364 | only fields supplied non-None change; code, window and ids are kept; when a supplied file id resolves to empty, `media_type` is cleared |
| WebApi.EmptyUpdateKeepsCampaign | web/api.py:316-364 | an update with no fields leaves the campaign as it was |
| WebApi.UpdateIdempotent | web/api.py:316-364 | applying the same update twice equals applying it once |
| WebApi.UpdateCampaign | web/api.py:301-384 | 404 and no change iff the code is unknown; otherwise only that campaign is replaced by the merged one, and the view counts its activations |
| Auth.CheckIpAllowed | web/auth.py:60-67 | an empty allow-list admits every client; otherwise the client IP must be listed |
| Auth.ParseCredentials | web/auth.py:76-78 | split at the first ":" so the password may hold ":"; None iff decoding failed or there is no ":" |
| Auth.GetCredentialsOptional | web/auth.py:70-81 | only a non-empty header starting "Basic " is read; every "Basic " is removed before decoding; any failure gives None |
| Auth.BasicTokenIsDecoded | web/auth.py:75 | for a token without spaces, removing "Basic " leaves exactly the token |
| Auth.NoSpaceNoBasic | web/auth.py:75 | a text without spaces never contains "Basic ", so `replace` leaves it alone |
| Auth.BasicHeaderRoundTrip | web/auth.py:70-81 | a "Basic" header of a user without ":" and any password gives back those exact credentials (section 2 of RFC 7617) |
| Auth.SplitAtFirstColon | web/auth.py:77 | splitting at the first ":" is unique |
| Auth.FirstColon | web/auth.py:77 | in "user:password" with a colon-free user, the first ":" is the one after the user |
| Auth.CookieCredentials | web/auth.py:107-113 | the cookie is decoded and split like the header; an empty cookie gives none |
| Auth.ChosenCredentials | web/auth.py:107-118 | the cookie's credentials when they carry a username, otherwise the Basic header's |
| Auth.WantsHtml | web/auth.py:96 | a request without an Accept header never counts as asking for HTML |
| Auth.IsAdmin | web/auth.py:121 | the credentials are present, the username is non-empty and an admin's, and the password is that admin's |
| Auth.VerifyAdmin | web/auth.py:84-132 | the IP check comes first (redirect for HTML, else 403); the result is the admin's name iff the IP is allowed and the chosen username is non-empty, is an admin, and its password matches exactly; 401 iff credentials fail on a non-HTML request |
| Auth.CookieShadowsBasicHeader | web/auth.py:107-118 | when the cookie names a user, the Basic header plays no part in the decision |
| Auth.DispatchAsWritten | web/app.py:28-41 | as wired: a returned redirect runs the route; a raised 401 becomes a login redirect only for HTML outside /api |
| Auth.HtmlRequestBypassesGate | web/auth.py:94-98 | as written, an HTML request with no credentials runs a protected /api route (see Findings) |
| Auth.Dispatch | web/auth.py:121-130 | as intended: a redirect verdict sends the client to the login page |
| Auth.HandlerRunsOnlyForAdmins | web/auth.py:93-132 | with the intended dispatch, a route runs iff the IP is allowed and the credentials are an admin's, and it runs with that admin's name |
| Auth.RejectedHtmlGoesToLogin | web/auth.py:123-125 | with the intended dispatch, a rejected HTML request goes to the login page |
| UserService.Refresh | services/user_service.py:33-38 | `last_active` becomes now; username and full name change only when the new values are non-empty; source, language and everything else are untouched |
| UserService.EnsureTag | services/user_service.py:94-103 | afterwards the tag exists; an existing tag table is unchanged, otherwise one tag is appended |
| UserService.EnsureTagIdempotent | services/user_service.py:94-103 | creating a tag twice is creating it once |
| UserService.TagUser | services/user_service.py:105-107 | only the tags of the user with that id can change |
| UserService.TagUserGivesTag | services/user_service.py:105-107 | afterwards the user has the tag, added once at the end if it was missing |
| UserService.TagUserIdempotent | services/user_service.py:85-108 | adding a tag twice is adding it once |
| UserService.ReplaceUserKeepsKeys | services/user_service.py:32-40 | updating a row in place keeps ids and telegram ids unique |
| UserService.AddTagToUser | services/user_service.py:85-108 | creates the tag if missing and gives it to the user at most once |
| UserService.GetOrCreateUser | services/user_service.py:12-58 | an existing telegram id creates nothing, refreshes the row and returns `is_new` false; a new one appends exactly one user with the given fields and the tag "registered_<date>", and returns `is_new` true |
| UserService.RegisterUser | services/user_service.py:42-56 | the new user, its row, and its "registered_<date>" tag |
| UserService.AppendUserKeepsKeys | services/user_service.py:43-51 | appending a user with fresh keys keeps them unique |
| UserService.FindUserByIdLast | services/user_service.py:50-56 | the user just appended is found by its id at the end |
| UserService.GetUser | services/user_service.py:61-68 | the user with the telegram id, or None exactly when there is none |
| UserService.UpdateUserLanguage | services/user_service.py:71-82 | None and no change for an unknown user; otherwise only that user's language changes |
| UserService.GetUsersMembers | services/user_service.py:111-153 | a user is returned iff they match every set filter (language, source, `created_at` bounds inclusive, at least one listed tag) |
| UserService.GetUsersUnfiltered | services/user_service.py:132-153 | with no filters every user is returned, in order |
| UserService.GetUsersDistinct | services/user_service.py:149-150 | no user is returned twice |
| UserService.GetUsers | services/user_service.py:111-153 | every returned user is from the table and matches every set filter |
| UserService.GetUsersCount | services/user_service.py:156-159 | the count equals the number of users an unfiltered `get_users` returns |
| UserService.GetUsersByLanguage | services/user_service.py:162-168 | every user's language is a key, and every key is some user's language with a positive count |
| UserService.GetUsersBySource | services/user_service.py:171-178 | every non-null source is a key, and every key is some user's source with a positive count |
| UserService.GroupCount | services/user_service.py:162-168 | one key per non-null value, mapped to how often it occurs |
| UserService.Occurrences | services/user_service.py:165-166 | a value is counted iff it occurs |
| UserService.GroupCountSum | services/user_service.py:162-178 | the group counts sum to the number of non-null values |
| UserService.LanguageCountsSumToTotal | services/user_service.py:156-168 | the per-language counts sum to `get_users_count` |
| UserService.SourceCountsSumToUsersWithSource | services/user_service.py:171-178 | the per-source counts omit null sources and sum to the number of users with a source |
| CampaignService.FindCampaign | services/campaign_service.py:56-64 | finds the campaign with a code, or shows that none has it |
| CampaignService.GetCampaignByCode | services/campaign_service.py:56-64 | the campaign with the code, or None exactly when there is none |
| CampaignService.CreateCampaign | services/campaign_service.py:12-53 | appends one campaign with the given fields, active from now until now plus `active_days` days; a duplicate code fails and changes nothing |
| CampaignService.CreatedCampaignActiveForItsDays | services/campaign_service.py:43-46 | a new switched-on campaign is currently active exactly during its `active_days` |
| CampaignService.FindUserRow | services/campaign_service.py:79-84 | finds the user row with a primary key |
| CampaignService.UserHasCampaign | services/campaign_service.py:97-110 | true iff the campaign is among the user's campaigns |
| CampaignService.Activate | services/campaign_service.py:86-91 | only that user's row can change |
| CampaignService.ActivatedUserHasCampaign | services/campaign_service.py:86-110 | after activation the user has the campaign |
| CampaignService.ActivateTwice | services/campaign_service.py:86-94 | activation is idempotent |
| CampaignService.ActivateCampaignForUser | services/campaign_service.py:67-94 | returns true iff the campaign was not yet linked, and links it; an already linked campaign gives false and no change |
| CampaignService.GetActiveCampaigns | services/campaign_service.py:119-128 | every returned campaign is from the table and currently active |
| CampaignService.ActiveCampaignsAreCurrentlyActive | services/campaign_service.py:119-128 | exactly the campaigns for which `is_currently_active` holds at now |
| CampaignService.ActivationCount | services/campaign_service.py:131-139 | the count is 0 iff no user is linked to the campaign |
| CampaignService.ActivationCountAfterActivate | services/campaign_service.py:86-94 | activation raises the campaign's count by one iff it was not yet linked |
| CampaignService.ActivationCountUpdate | services/campaign_service.py:131-139 | replacing one row changes the count by that row's difference |
| CampaignService.GetCampaignStats | services/campaign_service.py:131-139 | an entry for every campaign code, including those with no activations |
| CampaignService.CampaignStatsCounts | services/campaign_service.py:131-139 | each code maps to the number of users who activated that campaign |
| SettingsService.FindSetting | services/settings_service.py:18-23 | finds the row with a key, or shows that none has it |
| SettingsService.GetSetting | services/settings_service.py:9-28 | the stored value, or `default` when the key is absent |
| SettingsService.Upsert | services/settings_service.py:43-52 | an existing key is updated in place; a new key gets one appended row |
| SettingsService.GetAfterSet | services/settings_service.py:31-57 | after `set_setting(k, v)`, `get_setting(k)` returns v |
| SettingsService.SetKeepsOtherKeys | services/settings_service.py:31-57 | other keys read as before |
| SettingsService.SetSetting | services/settings_service.py:31-57 | the table becomes the upsert; keys stay unique; the returned row is stored with that key and value |
| SettingsService.GetAllSettings | services/settings_service.py:60-70 | a key is in the map iff some row has it |
| SettingsService.AllSettingsAgreeWithGet | services/settings_service.py:60-70 | with unique keys, every entry of the map equals `get_setting` for that key |
| Locales.ApplyFormat | locales.py:89-94 | no kwargs: the text itself; a KeyError gives the unformatted text; any other formatting error propagates |
| Locales.Entry | locales.py:87 | the cached text of a language and key, if any |
| Locales.DefaultLookup | locales.py:96-100 | a default text for its language; a missing key gives the English text, else the key |
| Locales.CacheLanguage | locales.py:83-85 | with a non-empty cache, a language not in it becomes "en" |
| Locales.Resolve | locales.py:83-100 | the text is the built-in one, or else a non-empty text of the database copy |
| Locales.GetText | locales.py:69-107 | formatting is applied to the resolved text, and without kwargs the resolved text is returned |
| Locales.LocaleCache.constructor | locales.py:60 | the cache starts empty |
| Locales.LocaleCache.SetTextsCache | locales.py:63-66 | the whole cache is replaced |
| Locales.CachedTextWins | locales.py:87-94 | a non-empty cached text is preferred to the defaults |
| Locales.UncachedLanguageReadsAsEnglish | locales.py:83-85 | a language missing from a non-empty cache reads as English |
| Locales.EmptyCachedTextFallsThrough | locales.py:88-100 | a missing or empty cached text falls through to the defaults, using the rebound language |
| Locales.EmptyCacheUsesDefaults | locales.py:83 | an empty cache reads only the defaults |
| Locales.UnknownDefaultLanguageReadsAsEnglish | locales.py:97-98 | an unknown language reads the English defaults |
| Locales.DefaultsShareKeys | locales.py:8-57 | the default tables cover pt, en and hu with the same keys |
| Locales.UnknownKeyIsItsOwnText | locales.py:100 | a key missing from the English defaults reads as itself |
| TextService.GetAllLanguages | services/text_service.py:183-190 | sorted by `sort_order`; exactly the languages, or only the active ones when asked |
| TextService.FindLanguage | services/text_service.py:193-198 | finds the language with a code, or shows that none has it |
| TextService.MaxSortOrder | services/text_service.py:204-205 | the largest sort order, or 0 when there are none |
| TextService.NewLanguage | services/text_service.py:207-212 | the new language comes after every existing one: max + 1, or 1 when the table is empty |
| TextService.CreateLanguage | services/text_service.py:201-215 | appends that language; a duplicate code fails and changes nothing |
| TextService.DeleteLanguage | services/text_service.py:232-246 | false and no change for a missing or default language; otherwise removes the language and all its texts |
| TextService.DeletedLanguageIsGone | services/text_service.py:239-244 | afterwards no language and no text has that code, and everything else is kept |
| TextService.LanguageRows | services/text_service.py:170-180 | one row is appended per default language, and the rows already there are kept as a prefix |
| TextService.LanguageRowsCarryDefaults | services/text_service.py:140-144 | inserting the defaults appends one row per default language, with its fields |
| TextService.InitialLanguages | services/text_service.py:140-144 | the defaults are en (the default), pt and hu, with distinct codes |
| TextService.InitDefaultLanguages | services/text_service.py:170-180 | does nothing when any language exists; otherwise inserts the defaults |
| TextService.FindText | services/text_service.py:274-279 | the only row of a key and language, none, or an error when two rows match (as `scalar_one_or_none` raises) |
| TextService.Upserted | services/text_service.py:282-300 | the upsert fails exactly when the lookup does |
| TextService.UpdateThenFind | services/text_service.py:282-300 | afterwards the row holds the text; the description changes only when given non-empty (a new row takes it as given); other rows are untouched |
| TextService.UpdateText | services/text_service.py:282-300 | the table becomes the upsert and the returned row is in it |
| TextService.FindTextSnocOther | services/text_service.py:303-319 | appending a row for another key or language does not change a lookup |
| TextService.FindTextSnocNew | services/text_service.py:309-316 | appending the first row of a key and language makes it the one found |
| TextService.AddKey | services/text_service.py:303-318 | on success, the rows already there are kept as a prefix and at most one row per language is added |
| TextService.AddKeyKeepsFound | services/text_service.py:308-309 | existing texts are untouched |
| TextService.AddKeyCovers | services/text_service.py:303-319 | afterwards every active language has a row for the key |
| TextService.AddKeyNoop | services/text_service.py:303-319 | when every language already has the key, nothing changes |
| TextService.CreateTextKeyIdempotent | services/text_service.py:303-319 | repeating the call is a no-op |
| TextService.AddKeyOnlyAppends | services/text_service.py:307-316 | only empty rows with the key and description are appended, one per listed language that lacked the key |
| TextService.AddKeyUnfold | services/text_service.py:307-316 | one loop iteration: an error, an appended empty row, or nothing |
| TextService.CreateTextKey | services/text_service.py:303-319 | the table becomes the specification over the active languages, and it returns true |
| TextService.AddKeyRows | services/text_service.py:307-316 | the loop computes the specification |
| TextService.DeleteTextKey | services/text_service.py:322-328 | removes every row with that key and nothing else, and returns true |
| TextService.DeletedKeyIsGone | services/text_service.py:322-328 | afterwards no lookup of the key finds a row |
| TextService.EntryRows | services/text_service.py:157-165 | rows are only appended: the rows already there are kept as a prefix |
| TextService.DefaultRows | services/text_service.py:155-165 | rows are only appended: the rows already there are kept as a prefix |
| TextService.EntryAddsEnglish | services/text_service.py:156-165 | a default entry with English text inserts its English row with the entry's description |
| TextService.DefaultRowsNonEmpty | services/text_service.py:39-165 | the defaults insert at least one row |
| TextService.InitDefaultTexts | services/text_service.py:147-167 | does nothing when any text exists; otherwise inserts the default rows |
| TextService.AddDefaultRows | services/text_service.py:155-165 | the nested loops compute the default rows |
| TextService.TextsFor | services/text_service.py:257-263 | exactly the keys that have a row in the language |
| TextService.TextsForLastRowWins | services/text_service.py:263 | with duplicate rows the last one's text wins, as in a dict comprehension |
| TextService.BuildCache | services/text_service.py:335-342 | one entry per language code, mapped to its texts |
| TextService.BuildCacheStep | services/text_service.py:341-342 | one loop iteration adds one language's entry |
| TextService.TextCache.constructor | services/text_service.py:332 | the cache starts empty |
| TextService.TextCache.Refresh | services/text_service.py:335-342 | rebuilds the cache from scratch over all languages, active or not |
| TextService.RefreshCoversEveryLanguage | services/text_service.py:335-342 | after a refresh there is exactly one entry per language, holding that language's texts |
| TextService.CachedLookup | services/text_service.py:345-352 | the text is some language's cached text for the key, or the key itself |
| TextService.GetCachedText | services/text_service.py:345-359 | formatting is applied to the looked-up text, and a KeyError returns it raw |
| TextService.CachedOwnTextWins | services/text_service.py:350 | a non-empty text in the language wins |
| TextService.CachedUnknownLanguageReadsAsEnglish | services/text_service.py:347-348 | an uncached language reads as "en" |
| TextService.CachedMissingTextFallsBack | services/text_service.py:351-352 | a missing or empty text becomes the English text, else the key |
| TextService.UnknownKeyShownAsKey | services/text_service.py:335-352 | a key no row has is shown as the key itself |
| StartHandler.StartPayload | handlers/start.py:90-91 | the rest of the message after the first whitespace split, or None when there is none |
| StartHandler.StartPayloadOfLink | handlers/start.py:90-91 | "/start <payload>" gives back the payload |
| StartHandler.BareCommandHasNoPayload | handlers/start.py:90-91 | a bare "/start" has no payload |
| StartHandler.RouteOf | handlers/start.py:94-102 | an "offer_" payload sets both campaign code and source to it; any other payload sets only the source; none sets neither |
| StartHandler.CheckSubscription | handlers/start.py:30-40 | true when no channel is required; otherwise true iff the status is member, administrator or creator, and false when the lookup fails |
| StartHandler.CampaignMessage | handlers/start.py:43-82 | nothing when the localised text is empty; otherwise the media switch with the campaign's keyboard |
| StartHandler.CampaignDecision | handlers/start.py:156-178 | in order: unknown code, then not currently active, gives "offer_expired"; already activated gives "offer_already_activated"; otherwise activate |
| StartHandler.SecondActivationIsRefused | handlers/start.py:167-175 | after an activation the same offer is refused as already activated |
| StartHandler.HandleCampaign | handlers/start.py:149-178 | follows the decision; only an activation links the campaign, tags the user with the code and sends the campaign message |
| StartHandler.CmdStart | handlers/start.py:85-146 | a new user is asked for a language with the parsed route and nothing is stored; an existing user is refreshed, tagged with the source if any, and asked to subscribe, carrying the campaign code |
| StartHandler.CallbackLanguage | handlers/start.py:243 | the second "_"-separated field of the callback data; none when there is no "_" |
| Keyboards.DictPut | keyboards/inline.py:22 | a dict assignment: an existing key keeps its place with the new value, a new key goes at the end |
| Keyboards.ListedLanguages | keyboards/inline.py:22 | exactly the codes of entries whose active flag is missing or true, without duplicates |
| Keyboards.ListedLanguagesLastWins | keyboards/inline.py:22 | a code listed twice shows the label of its last entry |
| Keyboards.LanguagesForKeyboard | keyboards/inline.py:19-23 | the supported languages when the cache is empty, otherwise the active cached entries as "flag name" |
| Keyboards.LanguagesCache.constructor | keyboards/inline.py:10 | the cache starts empty |
| Keyboards.LanguagesCache.SetLanguagesCache | keyboards/inline.py:13-16 | the whole cache is replaced |
| Keyboards.LanguageKeyboard | keyboards/inline.py:26-37 | one row per language, in order, with callback data "lang_"+code |
| Keyboards.LanguageDataRoundTrip | keyboards/inline.py:34 | "lang_"+code parses back to the code when the code has no "_" (handlers/start.py:243) |
| Keyboards.LanguageDataCutsAtUnderscore | keyboards/inline.py:34 | a code with "_", such as "pt_BR", comes back cut at its "_" |
| Keyboards.LanguageKeyboardSelectsItsLanguage | keyboards/inline.py:26-37 | each button of the keyboard selects its own language |
| Keyboards.BroadcastSourceKeyboard | keyboards/inline.py:84-102 | an "all sources" row, then one row per non-empty source, in order |
| Keyboards.SourceKeyboardCoversSources | keyboards/inline.py:95-96 | the rows are exactly the non-empty sources |
| Keyboards.BroadcastTagsKeyboard | keyboards/inline.py:105-122 | a "skip" row, then one row per tag, in order |
| Keyboards.Take | keyboards/inline.py:231 | the first n characters, or the whole title when it is shorter |
| Keyboards.CampaignLabel | keyboards/inline.py:230-231 | the status mark, a space, and the title cut to 30 characters |
| Keyboards.CampaignListKeyboard | keyboards/inline.py:225-248 | one row per campaign, with "view_campaign_" or "select_campaign_" data according to `show_edit` |
| Keyboards.CampaignLabelBounded | keyboards/inline.py:231 | a label is at most 32 characters, and its title part is a prefix of the title |
| Keyboards.SubscribeKeyboard | keyboards/inline.py:251-266 | exactly two rows: the channel URL button and the "check_subscription" callback |
| DeepLink.Utf8 | utils/deep_link.py:26 | one to four bytes per character; ASCII is one byte and nothing else is |
| DeepLink.QuoteChar | utils/deep_link.py:26 | a safe character is kept; any other becomes the escapes of its UTF-8 bytes |
| DeepLink.Quote | utils/deep_link.py:26 | quoting never shortens the payload |
| DeepLink.QuoteSafe | utils/deep_link.py:18-23 | payloads of letters, digits, "-", ".", "_", "~" and "/" are not changed |
| DeepLink.DecodeEscape | utils/deep_link.py:26 | one "%XX" escape decodes to its byte |
| DeepLink.DecodeEscapes | utils/deep_link.py:26 | a run of escapes decodes to its bytes |
| DeepLink.DecodeQuote | utils/deep_link.py:26 | percent-decoding the quoted payload gives its UTF-8 bytes: quoting loses nothing (section 2.1 of RFC 3986) |
| DeepLink.QuoteIsUrlSafe | utils/deep_link.py:26 | a quoted payload holds only safe characters and "%" |
| DeepLink.EscapesAreUrlSafe | utils/deep_link.py:26 | escapes hold only "%" and hexadecimal digits |
| DeepLink.StartLink | utils/deep_link.py:7-27 | no or empty payload gives exactly "https://t.me/"+username; otherwise the base, "?start=" and the quoted payload |
| DeepLink.CampaignLink | utils/deep_link.py:30-41 | the start link of the campaign code |
| DeepLink.SourceLink | utils/deep_link.py:44-55 | the start link of the source |
| DeepLink.SafePayloadLink | utils/deep_link.py:19-26 | a non-empty safe payload appears verbatim after "?start=" |
| DeepLink.CampaignLinkRoutesToCampaign | utils/deep_link.py:30-41 | an "offer_" campaign link carries the code verbatim, and its `/start` is routed to that campaign with the code as source (handlers/start.py:90-102) |
| Config.GetEnv | config.py:14 | `os.getenv` with a default |
| Config.ParseIds | config.py:22 | parts blank after stripping are skipped; a non-integer part makes the parse fail |
| Config.ParseAdminIds | config.py:22 | no more ids than comma-separated parts |
| Config.LoadSettings | config.py:13-53 | a missing or empty BOT_TOKEN, and then a missing or empty ADMIN_IDS, raise with their messages; otherwise the token, the parsed ids and the defaults of the other variables |
| Config.Decimals | config.py:22 | `str` of every id, in order |
| Config.ParseDecimals | config.py:22 | parsing the decimals of ids gives back the ids in order |
| Config.DecimalPart | config.py:22 | one id's decimal survives stripping and parses back |
| Config.AdminIdsRoundTrip | config.py:22 | a comma-joined list of ids reads back as that list |
| Config.DecimalHasNoComma | config.py:22 | an id's decimal holds no comma |
| Config.BlankPartsSkipped | config.py:22 | whitespace-only parts give no ids |
| Config.CommasOnlyGiveNoAdmins | config.py:19-22 | a value of only commas and whitespace passes the emptiness check and gives an empty admin list |
| Config.PartCharInText | config.py:22 | every character of a split part is a character of the text |
| Backup.Names | scripts/backup.py:37 | the names of the directory's files, in order |
| Backup.Lookup | scripts/backup.py:60 | the contents of a named file, or None exactly when no file has the name |
| Backup.DistinctCons | scripts/backup.py:33 | names stay distinct when the new name is not already present |
| Backup.Put | scripts/backup.py:33 | a copy creates or overwrites one file and leaves the others |
| Backup.PutKeepsDistinct | scripts/backup.py:33 | a copy keeps file names distinct |
| Backup.Remove | scripts/backup.py:39 | unlink removes exactly that file |
| Backup.RemoveKeepsDistinct | scripts/backup.py:39 | unlink keeps file names distinct |
| Backup.RemoveNames | scripts/backup.py:38-39 | exactly the listed files are gone |
| Backup.Matching | scripts/backup.py:37 | exactly the files matching bot_*.db |
| Backup.SortedBackups | scripts/backup.py:37 | the matching names in descending order |
| Backup.ReverseDescending | scripts/backup.py:37 | reversing an ascending list gives a descending one with the same names |
| Backup.Newest | scripts/backup.py:17-38 | at most `MAX_BACKUPS` (7) names are kept |
| Backup.Surplus | scripts/backup.py:37-38 | the sorted backups are the newest seven followed by the surplus |
| Backup.RemoveNamesStep | scripts/backup.py:38-39 | one loop iteration removes one more file |
| Backup.Prune | scripts/backup.py:37-40 | the surplus backups are gone and every other file is unchanged |
| Backup.PruneKeepsNewest | scripts/backup.py:37-40 | only backups outside the newest seven are removed; afterwards every remaining backup is among the newest |
| Backup.NewestAreGreatest | scripts/backup.py:37-40 | every kept backup sorts after every removed one |
| Backup.GreatestComesFirst | scripts/backup.py:45-51 | the greatest name is the one picked as latest |
| Backup.Pow10 | scripts/backup.py:30 | a positive power of ten |
| Backup.Pad | scripts/backup.py:30 | zero-padding gives exactly `width` digits |
| Backup.DigitCharOrder | scripts/backup.py:30 | digit characters sort as their values |
| Backup.LexLessSingle | scripts/backup.py:37 | one-character strings sort as their characters |
| Backup.PadOrder | scripts/backup.py:30 | zero-padded numbers of one width sort as the numbers do |
| Backup.LexLessConcat | scripts/backup.py:37 | with fixed-width heads, order is decided by the heads first |
| Backup.DatePart | scripts/backup.py:30 | "%Y%m%d" is eight characters |
| Backup.TimePart | scripts/backup.py:30 | "%H%M%S" is six characters |
| Backup.Timestamp | scripts/backup.py:30 | "%Y%m%d_%H%M%S" is fifteen characters |
| Backup.BackupName | scripts/backup.py:30-31 | "bot_" + timestamp + ".db" matches bot_*.db |
| Backup.DatePartOrder | scripts/backup.py:30 | date strings sort as dates |
| Backup.TimePartOrder | scripts/backup.py:30 | time strings sort as times |
| Backup.TimestampOrder | scripts/backup.py:30 | timestamps sort chronologically, and equal timestamps mean equal times |
| Backup.NamesSortByTime | scripts/backup.py:30-37 | backup names sort chronologically, so lexical order is time order |
| Backup.BackupDisk.constructor | scripts/backup.py:11-14 | a disk with the given database, saved copy and backups |
| Backup.BackupDisk.BackupDatabase | scripts/backup.py:20-40 | without a database nothing changes; otherwise the timestamped copy is added and the backups are pruned to the newest seven; the database is untouched |
| Backup.BackupDisk.RestoreLatest | scripts/backup.py:43-61 | with no backups nothing changes; otherwise the greatest name is restored, after the current database is saved if it exists |
| Backup.LatestIsGreatest | scripts/backup.py:45-51 | the backup picked as latest exists, matches, and sorts after every other backup |
| Backup.RestoreAfterBackup | scripts/backup.py:20-61 | after a backup newer than all others, restore picks that backup |
| Backup.EarlierBackupsSortFirst | scripts/backup.py:30-37 | an earlier backup's name sorts first |

## Left out

- Telegram Bot API calls are a `Provider` parameter. A channel-membership lookup is a `Result` parameter.
- The auto-sender's 0.1-second sleep after each successful send (tasks/auto_sender.py:87) is not recorded.
- AutoSender.RunPass: one clock reading stands for the per-rule `datetime.utcnow()` of the selection (services/auto_message_service.py:71) and for every `sent_at` insert default (models.py:138). The source reads a later clock for later rules and later inserts.
- Other sleeps are recorded as `Pause` events or pause lists; no clock advances.
- SQLAlchemy sessions, commits, refreshes and `selectinload` are not modelled.
- Queries return rows in table order. `get_users` and the recipient query are assumed to do the same, though SQL does not promise it.
- The primary key of a new row is one more than the largest existing id (`Seqs.NextId`), which approximates SQLite's AUTOINCREMENT.
- `BotText` has no unique constraint on (key, language). Duplicate rows are therefore modelled, and they make `get_text_by_key` raise.
- The repeated `join(User.tags)` for several tags in create_broadcast (web/api.py:556-559) is a `TagFilter` parameter. The model asserts nothing about multi-tag semantics.
- `get_users` models tags as "has at least one listed tag", which is what the `in_` join with `distinct()` selects.
- Media upload and temp-file conversion are the `Uploader` and `MediaConverter` parameters (web/api.py:330-362, 589-611, 687-724).
- The md5 hashing of uploads is not modelled.
- WebApi.ResolveMedia: for a /tmp/ path it states nothing beyond what the uploader returns, because the upload goes through the Bot API.
- The float `success_rate` (web/api.py:680) is not modelled.
- `json.loads`, base64 plus UTF-8 decoding, and `str.format` are function parameters. Their own behaviour is not modelled.
- JWT tokens and bcrypt hashing (web/auth.py:25-57) are not modelled.
- The FastAPI app, templates and CORS (web/app.py) are not modelled; only its 401 handler is.
- Process launchers, `main.py` start-up wiring, and the engine and session factory are not modelled.
- `load_dotenv` and `DATABASE_URL` are not modelled.
- Console printing in utils/deep_link.py:58-102 and scripts/backup.py is not modelled.
- File copying in scripts/backup.py is a directory value. Contents are opaque.
- Backup.ValidDateTime: timestamps need a four-digit year (1000-9999). Outside it `strftime` widths differ, and the order proof does not apply.
- FSM state storage in handlers/start.py is not modelled; only the decisions are.
- The callback flows of handlers/start.py other than the language parse are not modelled: subscription confirmation, language selection and the promo message.
- `update_language` and `get_language` in text_service.py are not modelled, except as `FindLanguage`.
- Config.ParseIds: `Strip` and `ParseInt` accept only ASCII whitespace and ASCII digits. Python's `str.strip()` and `int()` also accept Unicode whitespace and digits.
- `get_all_text_keys`, `get_all_texts`, `get_all_sources` and `get_all_tags` are not modelled; they are plain reads outside the core.
- The main-menu, settings, broadcast-language and broadcast-confirm keyboards in keyboards/inline.py are not modelled; they are fixed layouts.
- Concurrency between the background task and request-driven broadcasts (main.py) is not modelled. Each pass and each broadcast runs alone.
- AutoSender.Run: every pass takes its own provider and clock reading, and the clock is a finite list, so the model covers any finite prefix of the endless loop.
- AutoSender.RunPass: the only pass-level exception modelled is the duplicate-row error of the selection query. Database errors in general are not modelled.
- CampaignService.CreateCampaign: one `now` is used for both `active_from` and `active_to`. The source reads the clock twice, microseconds apart.

## Findings

| source | as written | input that shows it | evidently intended | confidence | as-written member | corrected member |
|---|---|---|---|---|---|---|
| web/auth.py:94-98, 121-125 | for HTML requests `verify_admin` returns a `RedirectResponse` as a dependency value. FastAPI hands it to the route as `username`, so the protected route runs | `Accept: text/html`, no cookie, no Authorization header, allowed IP, path `/api/stats` | a failed check sends the client to `/login` without running the route | not executed | Auth.HtmlRequestBypassesGate | Auth.HandlerRunsOnlyForAdmins |
