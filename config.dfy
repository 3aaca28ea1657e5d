/** The bot's settings read from the environment: the token and the admin
    list are required, the rest have defaults. The environment is a map
    from variable names to values, as it stands after the `.env` file has
    been loaded. */
module Config {
  import opened Wrappers
  import opened Strings

  type Environment = map<string, string>

  /** `os.getenv(name, default)`. */
  function GetEnv(env: Environment, name: string, default: string): (r: string)
    ensures name in env ==> r == env[name]
    ensures name !in env ==> r == default
  {
    if name in env then env[name] else default
  }

  /** The settings the bot reads at start-up. */
  datatype Settings = Settings(
    botToken: string,
    adminIds: seq<int>,
    defaultLanguage: string,
    requiredChannel: string,
    channelLink: string,
    promoCode: string,
    activationLink: string)

  /** The admin ids of the comma-separated parts, in order: parts that are
      blank after stripping are skipped, and a part that is not a decimal
      integer makes the whole parse fail, as `int()` raises. */
  function ParseIds(parts: seq<string>): (r: Result<seq<int>, string>)
    ensures r.Ok? ==> |r.value| <= |parts|
  {
    if parts == [] then Ok([])
    else
      var part := Strip(parts[0]);
      var rest := ParseIds(parts[1..]);
      if part == "" then rest
      else match ParseInt(part)
        case None => Err("ValueError: invalid literal for int() with base 10")
        case Some(id) => if rest.Err? then rest else Ok([id] + rest.value)
  }

  /** The `ADMIN_IDS` comprehension. */
  function ParseAdminIds(text: string): (r: Result<seq<int>, string>)
    ensures r.Ok? ==> |r.value| <= |Split(text, ',')|
  {
    ParseIds(Split(text, ','))
  }

  /** The module-level settings, or the error raised while reading them. */
  function LoadSettings(env: Environment): (r: Result<Settings, string>)
    ensures GetEnv(env, "BOT_TOKEN", "") == "" ==> r == Err("BOT_TOKEN not found in environment!")
    ensures GetEnv(env, "BOT_TOKEN", "") != "" && GetEnv(env, "ADMIN_IDS", "") == "" ==>
              r == Err("ADMIN_IDS not found in environment!")
    ensures r.Ok? ==> r.value.botToken == env["BOT_TOKEN"] && r.value.botToken != ""
    ensures r.Ok? ==> "ADMIN_IDS" in env && ParseAdminIds(env["ADMIN_IDS"]) == Ok(r.value.adminIds)
    ensures r.Ok? ==> r.value.defaultLanguage == GetEnv(env, "DEFAULT_LANGUAGE", "en")
                      && r.value.requiredChannel == GetEnv(env, "REQUIRED_CHANNEL", "")
  {
    var token := GetEnv(env, "BOT_TOKEN", "");
    if token == "" then Err("BOT_TOKEN not found in environment!")
    else
      var adminText := GetEnv(env, "ADMIN_IDS", "");
      if adminText == "" then Err("ADMIN_IDS not found in environment!")
      else match ParseAdminIds(adminText)
        case Err(e) => Err(e)
        case Ok(ids) =>
          Ok(Settings(token, ids,
                      GetEnv(env, "DEFAULT_LANGUAGE", "en"),
                      GetEnv(env, "REQUIRED_CHANNEL", ""),
                      GetEnv(env, "CHANNEL_LINK", "https://t.me/yourchannel"),
                      GetEnv(env, "PROMO_CODE", "WELCOME30"),
                      GetEnv(env, "ACTIVATION_LINK", "https://example.com/account")))
  }

  /** `str(i)` for every id. */
  function Decimals(ids: seq<int>): (r: seq<string>)
    ensures |r| == |ids|
    ensures forall i :: 0 <= i < |r| ==> r[i] == IntToDecimal(ids[i])
  {
    if ids == [] then [] else [IntToDecimal(ids[0])] + Decimals(ids[1..])
  }

  /** Parsing the decimals of ids gives back the ids, in order. */
  lemma {:induction false} ParseDecimals(ids: seq<int>)
    ensures ParseIds(Decimals(ids)) == Ok(ids)
  {
    if ids != [] {
      var parts := Decimals(ids);
      DecimalPart(ids[0]);
      assert parts[0] == IntToDecimal(ids[0]);
      assert parts[1..] == Decimals(ids[1..]);
      ParseDecimals(ids[1..]);
      assert ids == [ids[0]] + ids[1..];
    }
  }

  /** One id's decimal is a part that survives stripping and parses back. */
  lemma DecimalPart(id: int)
    ensures Strip(IntToDecimal(id)) == IntToDecimal(id) != ""
    ensures ParseInt(IntToDecimal(id)) == Some(id)
  {
    StripUntouched(IntToDecimal(id));
    IntDecimalRoundTrip(id);
  }

  /** A list of admin ids written with commas reads back as that list. */
  lemma AdminIdsRoundTrip(ids: seq<int>)
    requires ids != []
    ensures ParseAdminIds(Join(Decimals(ids), ',')) == Ok(ids)
  {
    var parts := Decimals(ids);
    forall i | 0 <= i < |parts| ensures ',' !in parts[i] {
      DecimalHasNoComma(ids[i]);
    }
    SplitJoin(parts, ',');
    ParseDecimals(ids);
  }

  lemma DecimalHasNoComma(i: int)
    ensures ',' !in IntToDecimal(i)
  {
    var s := IntToDecimal(i);
    var n: nat := if i < 0 then -i else i;
    assert AllDigits(NatToDecimal(n));
    if i < 0 {
      assert s == "-" + NatToDecimal(n);
    }
  }

  /** Parts made only of whitespace are skipped. */
  lemma {:induction false} BlankPartsSkipped(parts: seq<string>)
    requires forall i, j :: 0 <= i < |parts| && 0 <= j < |parts[i]| ==> IsSpace(parts[i][j])
    ensures ParseIds(parts) == Ok([])
  {
    if parts != [] {
      assert Strip(parts[0]) == [];
      BlankPartsSkipped(parts[1..]);
    }
  }

  /** A value of only commas and whitespace passes the emptiness check but
      gives no admins at all. */
  lemma CommasOnlyGiveNoAdmins(env: Environment)
    requires "BOT_TOKEN" in env && env["BOT_TOKEN"] != ""
    requires "ADMIN_IDS" in env && env["ADMIN_IDS"] != ""
    requires forall i :: 0 <= i < |env["ADMIN_IDS"]| ==> env["ADMIN_IDS"][i] == ',' || IsSpace(env["ADMIN_IDS"][i])
    ensures LoadSettings(env).Ok? && LoadSettings(env).value.adminIds == []
  {
    var text := env["ADMIN_IDS"];
    var parts := Split(text, ',');
    JoinSplit(text, ',');
    forall i, j | 0 <= i < |parts| && 0 <= j < |parts[i]| ensures IsSpace(parts[i][j]) {
      PartCharInText(parts, i, j);
    }
    BlankPartsSkipped(parts);
  }

  /** Every character of a part is a character of the joined text. */
  lemma {:induction false} PartCharInText(parts: seq<string>, i: nat, j: nat)
    requires i < |parts| && j < |parts[i]|
    ensures parts[i][j] in Join(parts, ',')
  {
    if |parts| > 1 {
      var s := Join(parts, ',');
      assert s == parts[0] + [','] + Join(parts[1..], ',');
      if i == 0 {
        assert s[j] == parts[0][j];
      } else {
        PartCharInText(parts[1..], i - 1, j);
        assert parts[1..][i - 1] == parts[i];
        var k :| 0 <= k < |Join(parts[1..], ',')| && Join(parts[1..], ',')[k] == parts[i][j];
        assert s[|parts[0]| + 1 + k] == parts[i][j];
      }
    }
  }
}
