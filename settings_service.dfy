/** Bot settings: a key-value table with a unique key. */
module SettingsService {
  import opened Wrappers
  import opened Seqs
  import opened Models
  import opened Store

  function FindSetting(settings: seq<Setting>, key: string): (r: Option<nat>)
    ensures r.Some? ==> r.value < |settings| && settings[r.value].key == key
    ensures r.None? ==> forall i :: 0 <= i < |settings| ==> settings[i].key != key
  {
    IndexWhere(settings, (s: Setting) => s.key == key)
  }

  /** `get_setting`: the stored value, or `default` for an absent key. */
  function GetSetting(settings: seq<Setting>, key: string, default: string): (r: string)
    ensures FindSetting(settings, key).None? ==> r == default
    ensures FindSetting(settings, key).Some? ==> r == settings[FindSetting(settings, key).value].value
  {
    match FindSetting(settings, key)
    case None => default
    case Some(i) => settings[i].value
  }

  /** The table after `set_setting`: the row with the key updated in place,
      or a new row. */
  function Upsert(settings: seq<Setting>, key: string, value: string): (r: seq<Setting>)
    ensures FindSetting(settings, key).Some? ==>
              var i := FindSetting(settings, key).value;
              r == settings[i := settings[i].(value := value)]
    ensures FindSetting(settings, key).None? ==> r == settings + [Setting(NextId(settings, (s: Setting) => s.id), key, value)]
  {
    match FindSetting(settings, key)
    case Some(i) => settings[i := settings[i].(value := value)]
    case None => settings + [Setting(NextId(settings, (s: Setting) => s.id), key, value)]
  }

  /** Reading a key just set yields the value set. */
  lemma GetAfterSet(settings: seq<Setting>, key: string, value: string, default: string)
    ensures GetSetting(Upsert(settings, key, value), key, default) == value
  {
    var after := Upsert(settings, key, value);
    match FindSetting(settings, key)
    case Some(i) =>
      IndexWhereCongruent(settings, after, (s: Setting) => s.key == key, (s: Setting) => s.key == key);
    case None =>
      assert after[|settings|].key == key;
  }

  /** Setting one key leaves every other key's value alone. */
  lemma SetKeepsOtherKeys(settings: seq<Setting>, key: string, value: string, other: string, default: string)
    requires other != key
    ensures GetSetting(Upsert(settings, key, value), other, default) == GetSetting(settings, other, default)
  {
    var after := Upsert(settings, key, value);
    var p := (s: Setting) => s.key == other;
    match FindSetting(settings, key)
    case Some(i) =>
      IndexWhereCongruent(settings, after, p, p);
    case None =>
      assert after[..|settings|] == settings;
      match FindSetting(settings, other)
      case Some(j) =>
        assert after[j] == settings[j];
      case None =>
        forall i | 0 <= i < |after| ensures after[i].key != other {
          if i < |settings| { assert after[i] == settings[i]; }
        }
  }

  /** `set_setting`: the new table keeps at most one row per key, and the
      row returned holds the value. */
  method SetSetting(db: Database, key: string, value: string) returns (s: Setting)
    requires db.Valid()
    modifies db`settings
    ensures db.Valid()
    ensures db.settings == Upsert(old(db.settings), key, value)
    ensures s.key == key && s.value == value && s in db.settings
  {
    var found := FindSetting(db.settings, key);
    if found.Some? {
      var i := found.value;
      s := db.settings[i].(value := value);
      db.settings := db.settings[i := s];
      assert db.settings[i] == s;
    } else {
      s := Setting(NextId(db.settings, (t: Setting) => t.id), key, value);
      db.settings := db.settings + [s];
      assert db.settings[|db.settings| - 1] == s;
    }
  }

  /** `get_all_settings`: every stored key mapped to its value. */
  function GetAllSettings(settings: seq<Setting>): (r: map<string, string>)
    ensures forall k :: k in r <==> exists i :: 0 <= i < |settings| && settings[i].key == k
    decreases |settings|
  {
    if settings == [] then map[]
    else
      var n := |settings| - 1;
      assert forall i :: 0 <= i < n ==> settings[..n][i] == settings[i];
      GetAllSettings(settings[..n])[settings[n].key := settings[n].value]
  }

  /** With unique keys, the whole map agrees with reading each key. */
  lemma {:induction false} AllSettingsAgreeWithGet(settings: seq<Setting>, default: string)
    requires Unique(settings, (s: Setting) => s.key)
    ensures forall k :: k in GetAllSettings(settings) ==> GetAllSettings(settings)[k] == GetSetting(settings, k, default)
    decreases |settings|
  {
    if settings != [] {
      var n := |settings| - 1;
      var prefix := settings[..n];
      assert Unique(prefix, (s: Setting) => s.key) by {
        forall i, j | 0 <= i < n && 0 <= j < n && prefix[i].key == prefix[j].key ensures i == j {
          assert prefix[i] == settings[i] && prefix[j] == settings[j];
        }
      }
      AllSettingsAgreeWithGet(prefix, default);
      forall k | k in GetAllSettings(settings)
        ensures GetAllSettings(settings)[k] == GetSetting(settings, k, default)
      {
        var p := (s: Setting) => s.key == k;
        if k == settings[n].key {
          var f := FindSetting(settings, k);
          assert f.Some?;
          assert f.value == n;
        } else {
          var j := FindSetting(prefix, k).value;
          assert settings[j] == prefix[j];
          assert FindSetting(settings, k).Some?;
        }
      }
    }
  }
}
