/** What the bot hands to the Telegram Bot API, and what comes back. The API
    itself is not modelled: every send is answered by a provider function. */
module Messaging {
  import opened Wrappers
  import opened Models

  datatype Button = UrlButton(text: string, url: string) | CallbackButton(text: string, data: string)

  /** An inline keyboard: rows of buttons. */
  type Keyboard = seq<seq<Button>>

  /** One message to one chat, as the bot's send calls build it. `html` is
      whether `parse_mode='HTML'` is passed. */
  datatype Payload =
    | TextMessage(text: string, html: bool, keyboard: Option<Keyboard>)
    | PhotoMessage(photo: string, caption: Option<string>, html: bool, keyboard: Option<Keyboard>)
    | VideoMessage(video: string, caption: Option<string>, html: bool, keyboard: Option<Keyboard>)
    | DocumentMessage(document: string, caption: Option<string>)

  datatype Delivery = Delivery(chatId: int, payload: Payload)

  /** How a send ends: it returns, or it raises one of the exceptions the
      callers tell apart (`TelegramForbiddenError`, `TelegramBadRequest`,
      `TelegramRetryAfter`) or any other. */
  datatype Outcome =
    | Delivered
    | Forbidden(message: string)
    | BadRequest(message: string)
    | RetryAfter(seconds: nat)
    | OtherError(message: string)

  /** Which send of a loop a request is: the recipient's position and whether
      it is the retry after a rate limit. */
  datatype Attempt = Attempt(position: nat, retry: bool)

  /** What a sending loop does, in order: a send, or a sleep of some seconds. */
  datatype Event = Send(attempt: Attempt, delivery: Delivery) | Pause(seconds: real)

  /** The messaging provider: the answer to each request of a loop. Keying it
      by the attempt lets it answer the same message differently each time. */
  type Provider = (Attempt, Delivery) -> Outcome

  /** What `json.loads` makes of a buttons column, as far as a keyboard can be
      built from it: a list of objects with text values, or `None` when it
      raises or yields anything else (a non-list, or entries that are not
      such objects). */
  type JsonDecoder = string -> Option<seq<map<string, string>>>

  /** One URL button per row, from the "text" and "url" of each entry; `None`
      stands for the `KeyError` of an entry that lacks either. */
  function UrlRows(entries: seq<map<string, string>>): (r: Option<Keyboard>)
    ensures r.Some? <==> forall i :: 0 <= i < |entries| ==> "text" in entries[i] && "url" in entries[i]
    ensures r.Some? ==> |r.value| == |entries|
    ensures r.Some? ==> forall i :: 0 <= i < |entries| ==>
              r.value[i] == [UrlButton(entries[i]["text"], entries[i]["url"])]
  {
    if entries == [] then Some([])
    else if "text" !in entries[0] || "url" !in entries[0] then None
    else match UrlRows(entries[1..])
      case None => None
      case Some(rest) => Some([[UrlButton(entries[0]["text"], entries[0]["url"])]] + rest)
  }

  /** The keyboard built from a buttons column: none for an empty or unset
      column, and an error where decoding or building raises. */
  function ButtonsKeyboard(buttonsJson: Option<string>, decode: JsonDecoder): (r: Result<Option<Keyboard>, string>)
    ensures !Truthy(buttonsJson) ==> r == Ok(None)
    ensures Truthy(buttonsJson) ==>
              (r.Ok? <==> decode(buttonsJson.value).Some? && UrlRows(decode(buttonsJson.value).value).Some?)
    ensures Truthy(buttonsJson) && r.Ok? ==> r.value == UrlRows(decode(buttonsJson.value).value)
  {
    if !Truthy(buttonsJson) then Ok(None)
    else match decode(buttonsJson.value)
      case None => Err("invalid buttons JSON")
      case Some(entries) =>
        match UrlRows(entries)
        case None => Err("button without text or url")
        case Some(rows) => Ok(Some(rows))
  }

  /** The keyboard when a failure to build it is swallowed (a bare `except`). */
  function KeyboardOrNone(buttonsJson: Option<string>, decode: JsonDecoder): (r: Option<Keyboard>)
    ensures ButtonsKeyboard(buttonsJson, decode).Err? ==> r.None?
    ensures ButtonsKeyboard(buttonsJson, decode).Ok? ==> r == ButtonsKeyboard(buttonsJson, decode).value
  {
    match ButtonsKeyboard(buttonsJson, decode)
    case Ok(kb) => kb
    case Err(_) => None
  }

  /** The media switch of the auto-message, campaign and web broadcast
      senders: a photo or video with `text` as its HTML caption when both a
      media type and a file id are set, plain HTML text when either is not,
      and no message at all for any other media type. */
  function MediaMessage(text: string, mediaType: Option<string>, fileId: Option<string>, keyboard: Option<Keyboard>): (r: Option<Payload>)
    ensures r.Some? && r.value.PhotoMessage? <==> Truthy(mediaType) && Truthy(fileId) && mediaType.value == "photo"
    ensures r.Some? && r.value.VideoMessage? <==> Truthy(mediaType) && Truthy(fileId) && mediaType.value == "video"
    ensures r.Some? && r.value.TextMessage? <==> !Truthy(mediaType) || !Truthy(fileId)
    ensures r.None? <==> Truthy(mediaType) && Truthy(fileId) && mediaType.value != "photo" && mediaType.value != "video"
    ensures r.Some? ==> !r.value.DocumentMessage? && r.value.html && r.value.keyboard == keyboard
    ensures r.Some? && !r.value.TextMessage? ==> r.value.caption == Some(text)
    ensures r.Some? && r.value.TextMessage? ==> r.value.text == text
  {
    if Truthy(mediaType) && Truthy(fileId) then
      if mediaType.value == "photo" then Some(PhotoMessage(fileId.value, Some(text), true, keyboard))
      else if mediaType.value == "video" then Some(VideoMessage(fileId.value, Some(text), true, keyboard))
      else None
    else Some(TextMessage(text, true, keyboard))
  }
}
