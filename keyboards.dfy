/** The bot's inline keyboards: the language picker (from the cached
    language list, or the built-in list), the admin's broadcast source and
    tag pickers, the campaign list, and the subscription check. Each
    builder returns a fresh keyboard, so each is a function. */
module Keyboards {
  import opened Wrappers
  import opened Seqs
  import opened Strings
  import opened Models
  import opened Messaging
  import opened Locales
  import opened StartHandler

  /** An insertion-ordered dictionary from string keys, as Python's `dict`. */
  type Dict = seq<(string, string)>

  ghost predicate DistinctKeys(d: Dict) {
    forall i, j :: 0 <= i < j < |d| ==> d[i].0 != d[j].0
  }

  /** `k in d`. */
  predicate HasKey(d: Dict, k: string) {
    exists i :: 0 <= i < |d| && d[i].0 == k
  }

  /** Whether an entry has key `k`. */
  function HasKeyOf(k: string): ((string, string)) -> bool {
    (e: (string, string)) => e.0 == k
  }

  /** `d[k] = v`: a key already present keeps its place and takes the new
      value; a new key goes at the end. */
  function DictPut(d: Dict, k: string, v: string): (r: Dict)
    requires DistinctKeys(d)
    ensures DistinctKeys(r)
    ensures forall x :: HasKey(r, x) <==> x == k || HasKey(d, x)
    ensures forall i :: 0 <= i < |r| && r[i].0 == k ==> r[i].1 == v
    ensures forall i :: 0 <= i < |r| && r[i].0 != k ==> i < |d| && r[i] == d[i]
    ensures forall i :: 0 <= i < |d| && d[i].0 != k ==> i < |r| && r[i] == d[i]
  {
    match IndexWhere(d, HasKeyOf(k))
    case Some(i) =>
      var r := d[i := (k, v)];
      assert forall x :: HasKey(d, x) ==> HasKey(r, x) by {
        forall x | HasKey(d, x) ensures HasKey(r, x) {
          var j :| 0 <= j < |d| && d[j].0 == x;
          assert r[j].0 == x;
        }
      }
      assert forall x :: HasKey(r, x) ==> HasKey(d, x) by {
        forall x | HasKey(r, x) ensures HasKey(d, x) {
          var j :| 0 <= j < |r| && r[j].0 == x;
          assert d[j].0 == x;
        }
      }
      r
    case None =>
      var r := d + [(k, v)];
      assert forall j :: 0 <= j < |d| ==> d[j].0 != k by {
        forall j | 0 <= j < |d| ensures d[j].0 != k {
          assert !HasKeyOf(k)(d[j]);
        }
      }
      assert HasKey(r, k) by { assert r[|d|].0 == k; }
      assert forall x :: HasKey(d, x) ==> HasKey(r, x) by {
        forall x | HasKey(d, x) ensures HasKey(r, x) {
          var j :| 0 <= j < |d| && d[j].0 == x;
          assert r[j].0 == x;
        }
      }
      assert forall x :: HasKey(r, x) && x != k ==> HasKey(d, x) by {
        forall x | HasKey(r, x) && x != k ensures HasKey(d, x) {
          var j :| 0 <= j < |r| && r[j].0 == x;
          assert d[j].0 == x;
        }
      }
      r
  }

  /** The languages `SUPPORTED_LANGUAGES` lists. */
  const SupportedLanguages: Dict := [("pt", "🇵🇹 Português"), ("hu", "🇭🇺 Magyar"), ("en", "🇬🇧 English")]

  /** An entry of the cached language list: `is_active` may be missing. */
  datatype LanguageEntry = LanguageEntry(code: string, name: string, flag: string, isActive: Option<bool>)

  /** A missing `is_active` counts as active. */
  predicate Listed(l: LanguageEntry) {
    l.isActive.GetOr(true)
  }

  /** The button label of a language: its flag, a space, its name. */
  function Label(l: LanguageEntry): string {
    l.flag + " " + l.name
  }

  /** The language picker's entries from a non-empty cache: code to label
      for the listed entries, in first-seen order, a later entry of a code
      relabelling it. */
  function ListedLanguages(entries: seq<LanguageEntry>): (r: Dict)
    ensures DistinctKeys(r)
    ensures forall code :: HasKey(r, code) <==> ListedCode(entries, code)
    decreases |entries|
  {
    if entries == [] then []
    else
      var init := entries[..|entries| - 1];
      var last := entries[|entries| - 1];
      assert forall j :: 0 <= j < |init| ==> init[j] == entries[j];
      var d := ListedLanguages(init);
      assert forall code :: ListedCode(entries, code) <==> ListedCode(init, code) || (Listed(last) && last.code == code) by {
        forall code ensures ListedCode(entries, code) ==> ListedCode(init, code) || (Listed(last) && last.code == code) {
          if ListedCode(entries, code) {
            var j :| 0 <= j < |entries| && entries[j].code == code && Listed(entries[j]);
            if j < |init| {
              assert init[j] == entries[j];
            }
          }
        }
      }
      if Listed(last) then DictPut(d, last.code, Label(last)) else d
  }

  /** Some listed entry has the code. */
  predicate ListedCode(entries: seq<LanguageEntry>, code: string) {
    exists j :: 0 <= j < |entries| && entries[j].code == code && Listed(entries[j])
  }

  /** A code's label is that of its last listed entry. */
  lemma {:induction false} ListedLanguagesLastWins(entries: seq<LanguageEntry>, j: nat, i: nat)
    requires j < |entries| && Listed(entries[j])
    requires forall m :: j < m < |entries| && Listed(entries[m]) ==> entries[m].code != entries[j].code
    requires i < |ListedLanguages(entries)| && ListedLanguages(entries)[i].0 == entries[j].code
    ensures ListedLanguages(entries)[i].1 == Label(entries[j])
    decreases |entries|
  {
    var init := entries[..|entries| - 1];
    var last := entries[|entries| - 1];
    var d := ListedLanguages(init);
    if j < |entries| - 1 {
      assert init[j] == entries[j];
      assert forall m :: j < m < |init| ==> init[m] == entries[m];
      if Listed(last) {
        assert last.code != entries[j].code;
        assert ListedLanguages(entries)[i] == d[i];
      }
      ListedLanguagesLastWins(init, j, i);
    }
  }

  /** `get_languages_for_keyboard`: the cached list when there is one,
      otherwise the built-in list. */
  function LanguagesForKeyboard(cache: seq<LanguageEntry>): (r: Dict)
    ensures cache == [] ==> r == SupportedLanguages
    ensures cache != [] ==> r == ListedLanguages(cache)
    ensures DistinctKeys(r)
  {
    if cache == [] then SupportedLanguages else ListedLanguages(cache)
  }

  /** The module-level copy of the language list. */
  class LanguagesCache {
    var entries: seq<LanguageEntry>

    constructor()
      ensures entries == []
    {
      entries := [];
    }

    /** `set_languages_cache`: the whole list is replaced. */
    method SetLanguagesCache(entries: seq<LanguageEntry>)
      modifies this
      ensures this.entries == entries
    {
      this.entries := entries;
    }

    function ForKeyboard(): Dict
      reads this
    {
      LanguagesForKeyboard(entries)
    }
  }

  /** The callback data of a language button. */
  function LanguageData(code: string): string {
    "lang_" + code
  }

  /** `get_language_keyboard`: one row per language, in order, each a
      button labelled with the language that sends "lang_" and its code. */
  function LanguageKeyboard(languages: Dict): (r: Keyboard)
    ensures |r| == |languages|
    ensures forall i :: 0 <= i < |r| ==> r[i] == [CallbackButton(languages[i].1, LanguageData(languages[i].0))]
  {
    seq(|languages|, i requires 0 <= i < |languages| => [CallbackButton(languages[i].1, LanguageData(languages[i].0))])
  }

  /** The language callback reads back the code of a language button, for a
      code without "_". */
  lemma LanguageDataRoundTrip(code: string)
    requires '_' !in code
    ensures CallbackLanguage(LanguageData(code)) == Some(code)
  {
    var parts := ["lang", code];
    assert Join(parts, '_') == "lang" + ['_'] + code;
    assert LanguageData(code) == Join(parts, '_');
    SplitJoin(parts, '_');
  }

  /** A code with "_" is cut at it: "pt_BR" selects "pt". */
  lemma LanguageDataCutsAtUnderscore()
    ensures CallbackLanguage(LanguageData("pt_BR")) == Some("pt")
  {
    var parts := ["lang", "pt", "BR"];
    assert Join(parts, '_') == LanguageData("pt_BR");
    SplitJoin(parts, '_');
  }

  /** Every button of the language picker selects its own language when no
      code holds "_". */
  lemma LanguageKeyboardSelectsItsLanguage(cache: seq<LanguageEntry>, i: nat)
    requires i < |LanguagesForKeyboard(cache)|
    requires '_' !in LanguagesForKeyboard(cache)[i].0
    ensures CallbackLanguage(LanguageKeyboard(LanguagesForKeyboard(cache))[i][0].data) == Some(LanguagesForKeyboard(cache)[i].0)
  {
    LanguageDataRoundTrip(LanguagesForKeyboard(cache)[i].0);
  }

  function NonEmpty(s: string): bool { s != "" }

  /** `get_broadcast_source_keyboard`: an "all sources" row, then one row
      per non-empty source, in order. */
  function BroadcastSourceKeyboard(sources: seq<string>): (r: Keyboard)
    ensures |r| == 1 + |Filter(sources, NonEmpty)|
    ensures r[0] == [CallbackButton("📱 Все источники", "broadcast_source_all")]
    ensures forall i :: 0 <= i < |Filter(sources, NonEmpty)| ==>
              var s := Filter(sources, NonEmpty)[i];
              r[i + 1] == [CallbackButton("📍 " + s, "broadcast_source_" + s)]
  {
    var kept := Filter(sources, NonEmpty);
    [[CallbackButton("📱 Все источники", "broadcast_source_all")]] +
    seq(|kept|, i requires 0 <= i < |kept| => [CallbackButton("📍 " + kept[i], "broadcast_source_" + kept[i])])
  }

  /** Every non-empty source has its row, and no empty one has. */
  lemma SourceKeyboardCoversSources(sources: seq<string>)
    ensures forall s :: s in Filter(sources, NonEmpty) <==> s in sources && s != ""
  {
    FilterMembers(sources, NonEmpty);
  }

  /** `get_broadcast_tags_keyboard`: a "skip" row, then one row per tag, in
      order. */
  function BroadcastTagsKeyboard(tags: seq<string>): (r: Keyboard)
    ensures |r| == 1 + |tags|
    ensures r[0] == [CallbackButton("⏩ Пропустить", "broadcast_tags_skip")]
    ensures forall i :: 0 <= i < |tags| ==> r[i + 1] == [CallbackButton("🏷 " + tags[i], "broadcast_tag_" + tags[i])]
  {
    [[CallbackButton("⏩ Пропустить", "broadcast_tags_skip")]] +
    seq(|tags|, i requires 0 <= i < |tags| => [CallbackButton("🏷 " + tags[i], "broadcast_tag_" + tags[i])])
  }

  /** Python's `s[:n]`. */
  function Take(s: string, n: nat): (r: string)
    ensures |r| == if |s| <= n then |s| else n
    ensures r == s[..|r|]
  {
    if |s| <= n then s else s[..n]
  }

  /** The label of a campaign in the list: its current status and at most
      30 characters of its title. */
  function CampaignLabel(c: Campaign, now: Instant): (r: string)
    ensures var status := if c.IsCurrentlyActive(now) then "✅" else "❌";
      r == status + " " + Take(c.title, 30)
  {
    (if c.IsCurrentlyActive(now) then "✅" else "❌") + " " + Take(c.title, 30)
  }

  /** `get_campaign_list_keyboard`: one row per campaign, in order, that
      opens it for editing or selects it. */
  function CampaignListKeyboard(campaigns: seq<Campaign>, showEdit: bool, now: Instant): (r: Keyboard)
    ensures |r| == |campaigns|
    ensures forall i :: 0 <= i < |r| ==>
              r[i] == [CallbackButton(CampaignLabel(campaigns[i], now),
                                      (if showEdit then "view_campaign_" else "select_campaign_") + campaigns[i].code)]
  {
    seq(|campaigns|, i requires 0 <= i < |campaigns| =>
      [CallbackButton(CampaignLabel(campaigns[i], now),
                      (if showEdit then "view_campaign_" else "select_campaign_") + campaigns[i].code)])
  }

  /** A label never exceeds the status, a space and 30 title characters. */
  lemma CampaignLabelBounded(c: Campaign, now: Instant)
    ensures |CampaignLabel(c, now)| <= 32
    ensures StartsWith(c.title, CampaignLabel(c, now)[2..])
  {
  }

  /** The callback data of the subscription check button. */
  const CheckSubscriptionData: string := "check_subscription"

  /** `get_subscribe_keyboard`: a link to the channel, then the button that
      asks for the subscription check, labelled in the user's language. */
  function SubscribeKeyboard(cache: TextTable, channelLink: string, language: string): (r: Keyboard)
    ensures |r| == 2 && |r[0]| == 1 && |r[1]| == 1
    ensures r[0][0] == UrlButton(Resolve(cache, language, "subscribe_button"), channelLink)
    ensures r[1][0] == CallbackButton(Resolve(cache, language, "subscribed_button"), CheckSubscriptionData)
  {
    [[UrlButton(Resolve(cache, language, "subscribe_button"), channelLink)],
     [CallbackButton(Resolve(cache, language, "subscribed_button"), CheckSubscriptionData)]]
  }
}
