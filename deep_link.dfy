/** Start links (`https://t.me/<bot>?start=<payload>`) for campaigns and
    traffic sources. The payload is percent-encoded as `urllib.parse.quote`
    does with its default safe set: every character outside the unreserved
    set of section 2.3 of RFC 3986 and "/" becomes the "%XX" escapes of its
    UTF-8 bytes (section 2.1 of RFC 3986, section 3 of RFC 3629). */
module DeepLink {
  import opened Wrappers
  import opened Strings
  import opened Models
  import opened StartHandler

  /** Letters, digits, "-", ".", "_" and "~" (section 2.3 of RFC 3986). */
  predicate IsUnreserved(c: char) {
    ('A' <= c <= 'Z') || ('a' <= c <= 'z') || ('0' <= c <= '9') || c == '-' || c == '.' || c == '_' || c == '~'
  }

  /** The characters `quote` leaves alone: the unreserved ones and "/". */
  predicate IsSafe(c: char) {
    IsUnreserved(c) || c == '/'
  }

  /** The UTF-8 encoding of one character (section 3 of RFC 3629). */
  function Utf8(c: char): (r: seq<nat>)
    ensures 1 <= |r| <= 4
    ensures forall i :: 0 <= i < |r| ==> r[i] < 256
    ensures (c as int) < 0x80 ==> r == [c as int]
    ensures (c as int) >= 0x80 ==> forall i :: 0 <= i < |r| ==> r[i] >= 0x80
  {
    var n := c as int;
    if n < 0x80 then [n]
    else if n < 0x800 then [0xC0 + n / 64, 0x80 + n % 64]
    else if n < 0x10000 then [0xE0 + n / 4096, 0x80 + (n / 64) % 64, 0x80 + n % 64]
    else [0xF0 + n / 262144, 0x80 + (n / 4096) % 64, 0x80 + (n / 64) % 64, 0x80 + n % 64]
  }

  /** The UTF-8 encoding of a string. */
  function Utf8String(s: string): (r: seq<nat>)
    ensures forall i :: 0 <= i < |r| ==> r[i] < 256
  {
    if s == [] then [] else Utf8(s[0]) + Utf8String(s[1..])
  }

  const HexDigits: string := "0123456789ABCDEF"

  /** "%XX" for a byte, with upper-case hexadecimal digits. */
  function Escape(b: nat): (r: string)
    requires b < 256
    ensures |r| == 3 && r[0] == '%'
  {
    ['%', HexDigits[b / 16], HexDigits[b % 16]]
  }

  /** The escapes of a run of bytes. */
  function EscapeAll(bytes: seq<nat>): (r: string)
    requires forall i :: 0 <= i < |bytes| ==> bytes[i] < 256
    ensures |r| == 3 * |bytes|
  {
    if bytes == [] then "" else Escape(bytes[0]) + EscapeAll(bytes[1..])
  }

  /** One character as `quote` writes it. */
  function QuoteChar(c: char): (r: string)
    ensures IsSafe(c) ==> r == [c]
    ensures !IsSafe(c) ==> r == EscapeAll(Utf8(c))
  {
    if IsSafe(c) then [c] else EscapeAll(Utf8(c))
  }

  /** `urllib.parse.quote(s)`. */
  function Quote(s: string): (r: string)
    ensures |r| >= |s|
  {
    if s == [] then "" else QuoteChar(s[0]) + Quote(s[1..])
  }

  /** A string of safe characters is left as it is, which is why codes like
      "offer_black_friday" appear verbatim in links. */
  lemma {:induction false} QuoteSafe(s: string)
    requires forall i :: 0 <= i < |s| ==> IsSafe(s[i])
    ensures Quote(s) == s
  {
    if s != [] {
      QuoteSafe(s[1..]);
      assert s == [s[0]] + s[1..];
    }
  }

  /** The value of a hexadecimal digit, in either case. */
  function HexValue(c: char): (r: Option<nat>)
    ensures r.Some? ==> r.value < 16
  {
    if '0' <= c <= '9' then Some(c as int - '0' as int)
    else if 'A' <= c <= 'F' then Some(c as int - 'A' as int + 10)
    else if 'a' <= c <= 'f' then Some(c as int - 'a' as int + 10)
    else None
  }

  /** Percent-decoding (section 2.1 of RFC 3986): each "%XX" becomes its
      byte, every other character its code. */
  function PercentDecode(s: string): (r: seq<nat>)
    decreases |s|
  {
    if s == [] then []
    else if s[0] == '%' && |s| >= 3 && HexValue(s[1]).Some? && HexValue(s[2]).Some? then
      [16 * HexValue(s[1]).value + HexValue(s[2]).value] + PercentDecode(s[3..])
    else [s[0] as int] + PercentDecode(s[1..])
  }

  lemma HexDigitValue(d: nat)
    requires d < 16
    ensures HexValue(HexDigits[d]) == Some(d)
  {
  }

  /** Decoding reads one escape back as its byte. */
  lemma DecodeEscape(b: nat, tail: string)
    requires b < 256
    ensures PercentDecode(Escape(b) + tail) == [b] + PercentDecode(tail)
  {
    var s := Escape(b) + tail;
    HexDigitValue(b / 16);
    HexDigitValue(b % 16);
    assert s[0] == '%' && s[1] == HexDigits[b / 16] && s[2] == HexDigits[b % 16];
    assert s[3..] == tail;
  }

  /** Decoding reads the escapes of a run of bytes back as those bytes. */
  lemma {:induction false} DecodeEscapes(bytes: seq<nat>, rest: string)
    requires forall i :: 0 <= i < |bytes| ==> bytes[i] < 256
    ensures PercentDecode(EscapeAll(bytes) + rest) == bytes + PercentDecode(rest)
  {
    if bytes == [] {
      assert EscapeAll(bytes) + rest == rest;
    } else {
      var b, more := bytes[0], bytes[1..];
      var tail := EscapeAll(more) + rest;
      calc {
        PercentDecode(EscapeAll(bytes) + rest);
        { assert EscapeAll(bytes) + rest == Escape(b) + tail; }
        PercentDecode(Escape(b) + tail);
        { DecodeEscape(b, tail); }
        [b] + PercentDecode(tail);
        { DecodeEscapes(more, rest); }
        [b] + (more + PercentDecode(rest));
        { assert bytes == [b] + more; }
        bytes + PercentDecode(rest);
      }
    }
  }

  /** Percent-decoding a quoted string gives back its UTF-8 bytes: quoting
      loses nothing. */
  lemma {:induction false} DecodeQuote(s: string)
    ensures PercentDecode(Quote(s)) == Utf8String(s)
  {
    if s != [] {
      var c := s[0];
      DecodeQuote(s[1..]);
      if IsSafe(c) {
        assert Quote(s) == [c] + Quote(s[1..]);
        assert (c as int) < 0x80;
      } else {
        DecodeEscapes(Utf8(c), Quote(s[1..]));
      }
    }
  }

  /** A quoted string holds only safe characters, "%" and hexadecimal
      digits: no whitespace, "?", "&" or "#" that would end the payload. */
  lemma {:induction false} QuoteIsUrlSafe(s: string)
    ensures forall i :: 0 <= i < |Quote(s)| ==> IsSafe(Quote(s)[i]) || Quote(s)[i] == '%'
  {
    if s != [] {
      QuoteIsUrlSafe(s[1..]);
      var head := QuoteChar(s[0]);
      if !IsSafe(s[0]) {
        EscapesAreUrlSafe(Utf8(s[0]));
      }
      assert forall i :: 0 <= i < |head| ==> IsSafe(head[i]) || head[i] == '%';
      var q := Quote(s);
      assert q == head + Quote(s[1..]);
      forall i | 0 <= i < |q| ensures IsSafe(q[i]) || q[i] == '%' {
        if i >= |head| {
          assert q[i] == Quote(s[1..])[i - |head|];
        }
      }
    }
  }

  lemma {:induction false} EscapesAreUrlSafe(bytes: seq<nat>)
    requires forall i :: 0 <= i < |bytes| ==> bytes[i] < 256
    ensures forall i :: 0 <= i < |EscapeAll(bytes)| ==> IsSafe(EscapeAll(bytes)[i]) || EscapeAll(bytes)[i] == '%'
  {
    if bytes != [] {
      EscapesAreUrlSafe(bytes[1..]);
      var e := Escape(bytes[0]);
      var all := EscapeAll(bytes);
      assert all == e + EscapeAll(bytes[1..]);
      forall i | 0 <= i < |all| ensures IsSafe(all[i]) || all[i] == '%' {
        if i >= 3 {
          assert all[i] == EscapeAll(bytes[1..])[i - 3];
        }
      }
    }
  }

  const TelegramBase: string := "https://t.me/"

  /** `generate_start_link`: the bot's link, with "?start=" and the quoted
      payload when there is a non-empty payload. */
  function StartLink(botUsername: string, payload: Option<string>): (r: string)
    ensures !Truthy(payload) ==> r == TelegramBase + botUsername
    ensures Truthy(payload) ==> r == TelegramBase + botUsername + "?start=" + Quote(payload.value)
  {
    if payload.Some? && payload.value != "" then TelegramBase + botUsername + "?start=" + Quote(payload.value)
    else TelegramBase + botUsername
  }

  /** `generate_campaign_link`. */
  function CampaignLink(botUsername: string, campaignCode: string): (r: string)
    ensures r == StartLink(botUsername, Some(campaignCode))
  {
    StartLink(botUsername, Some(campaignCode))
  }

  /** `generate_source_link`. */
  function SourceLink(botUsername: string, source: string): (r: string)
    ensures r == StartLink(botUsername, Some(source))
  {
    StartLink(botUsername, Some(source))
  }

  /** A non-empty payload of safe characters appears in the link as it is. */
  lemma SafePayloadLink(botUsername: string, payload: string)
    requires payload != []
    requires forall i :: 0 <= i < |payload| ==> IsSafe(payload[i])
    ensures StartLink(botUsername, Some(payload)) == TelegramBase + botUsername + "?start=" + payload
  {
    QuoteSafe(payload);
  }

  /** A campaign link for an "offer_" code made of safe characters carries
      the code verbatim, and the `/start` it opens is routed to that
      campaign, with the code as the source. */
  lemma CampaignLinkRoutesToCampaign(botUsername: string, code: string)
    requires StartsWith(code, OfferPrefix)
    requires forall i :: 0 <= i < |code| ==> IsSafe(code[i])
    ensures CampaignLink(botUsername, code) == TelegramBase + botUsername + "?start=" + code
    ensures RouteOf(StartPayload("/start " + code)) == Route(Some(code), Some(code))
  {
    SafePayloadLink(botUsername, code);
    assert code[0] == 'o';
    var command := "/start";
    assert forall i :: 0 <= i < |command| ==> !IsSpace(command[i]);
    StartPayloadOfLink(command, code);
    assert command + " " + code == "/start " + code;
  }
}
