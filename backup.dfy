/** The database backup script: a backup copies the database into the
    backups directory under a name stamped with the current time, then
    removes every "bot_*.db" file but the seven whose names sort last; a
    restore copies the backup whose name sorts last over the database,
    saving the current database first. File contents are opaque. */
module Backup {
  import opened Wrappers
  import opened Strings

  /** The bytes of a file. */
  type Contents = seq<int>

  /** A directory: its entries, in listing order. */
  type Directory = seq<(string, Contents)>

  /** How many backups survive a backup run. */
  const MaxBackups: nat := 7

  // ---------------------------------------------------------------------
  // Directories

  function Names(files: Directory): (r: seq<string>)
    ensures |r| == |files|
    ensures forall i :: 0 <= i < |files| ==> r[i] == files[i].0
  {
    if files == [] then [] else [files[0].0] + Names(files[1..])
  }

  /** A directory holds each name at most once. */
  predicate DistinctNames(files: Directory) {
    forall i, j :: 0 <= i < j < |files| ==> files[i].0 != files[j].0
  }

  /** The contents of the file with a name, if there is one. */
  function Lookup(files: Directory, name: string): (r: Option<Contents>)
    ensures r.None? <==> name !in Names(files)
    ensures r.Some? ==> (name, r.value) in files
  {
    if files == [] then None
    else if files[0].0 == name then Some(files[0].1)
    else Lookup(files[1..], name)
  }

  /** A directory is its first entry and the rest. */
  lemma DistinctCons(x: (string, Contents), rest: Directory)
    ensures Names([x] + rest) == [x.0] + Names(rest)
    ensures DistinctNames([x] + rest) <==> DistinctNames(rest) && x.0 !in Names(rest)
  {
    var files := [x] + rest;
    assert files[1..] == rest;
    if DistinctNames(rest) && x.0 !in Names(rest) {
      forall i, j | 0 <= i < j < |files| ensures files[i].0 != files[j].0 {
        if i > 0 {
          assert files[i] == rest[i - 1] && files[j] == rest[j - 1];
        } else {
          assert Names(rest)[j - 1] == files[j].0;
        }
      }
    }
    if DistinctNames(files) {
      forall k | 0 <= k < |rest| ensures Names(rest)[k] != x.0 {
        assert files[k + 1] == rest[k];
      }
      forall i, j | 0 <= i < j < |rest| ensures rest[i].0 != rest[j].0 {
        assert files[i + 1] == rest[i] && files[j + 1] == rest[j];
      }
    }
  }

  /** Copying a file to a name: an existing file of that name is
      overwritten, otherwise a new entry appears. */
  function Put(files: Directory, name: string, c: Contents): (r: Directory)
    ensures Lookup(r, name) == Some(c)
    ensures forall n :: n != name ==> Lookup(r, n) == Lookup(files, n)
    ensures forall n :: n in Names(r) <==> n in Names(files) || n == name
  {
    if files == [] then [(name, c)]
    else
      assert files == [files[0]] + files[1..];
      if files[0].0 == name then [(name, c)] + files[1..]
      else [files[0]] + Put(files[1..], name, c)
  }

  /** A copy keeps a directory free of repeated names. */
  lemma {:induction false} PutKeepsDistinct(files: Directory, name: string, c: Contents)
    requires DistinctNames(files)
    ensures DistinctNames(Put(files, name, c))
  {
    if files != [] {
      DistinctCons(files[0], files[1..]);
      assert files == [files[0]] + files[1..];
      if files[0].0 == name {
        DistinctCons((name, c), files[1..]);
      } else {
        PutKeepsDistinct(files[1..], name, c);
        DistinctCons(files[0], Put(files[1..], name, c));
      }
    }
  }

  /** Unlinking a name. */
  function Remove(files: Directory, name: string): (r: Directory)
    ensures forall n :: n in Names(r) <==> n in Names(files) && n != name
    ensures forall n :: Lookup(r, n) == if n == name then None else Lookup(files, n)
  {
    if files == [] then []
    else
      assert files == [files[0]] + files[1..];
      if files[0].0 == name then Remove(files[1..], name)
      else [files[0]] + Remove(files[1..], name)
  }

  /** Unlinking keeps a directory free of repeated names. */
  lemma {:induction false} RemoveKeepsDistinct(files: Directory, name: string)
    requires DistinctNames(files)
    ensures DistinctNames(Remove(files, name))
  {
    if files != [] {
      DistinctCons(files[0], files[1..]);
      assert files == [files[0]] + files[1..];
      RemoveKeepsDistinct(files[1..], name);
      if files[0].0 != name {
        DistinctCons(files[0], Remove(files[1..], name));
      }
    }
  }

  /** Unlinking names one after the other. */
  function RemoveNames(files: Directory, names: seq<string>): (r: Directory)
    ensures forall n :: Lookup(r, n) == if n in names then None else Lookup(files, n)
    decreases |names|
  {
    if names == [] then files
    else
      var k := |names| - 1;
      assert names == names[..k] + [names[k]];
      Remove(RemoveNames(files, names[..k]), names[k])
  }

  // ---------------------------------------------------------------------
  // Backup names

  /** The names the pattern "bot_*.db" matches. */
  predicate IsBackupName(name: string) {
    |name| >= 7 && StartsWith(name, "bot_") && EndsWith(name, ".db")
  }

  /** The names of a directory the pattern matches, in listing order. */
  function Matching(files: Directory): (r: seq<string>)
    ensures forall n :: n in r <==> n in Names(files) && IsBackupName(n)
  {
    if files == [] then []
    else (if IsBackupName(files[0].0) then [files[0].0] else []) + Matching(files[1..])
  }

  /** The matching names, greatest first, as `sorted(..., reverse=True)`. */
  function SortedBackups(files: Directory): (r: seq<string>)
    ensures forall n :: n in r <==> n in Names(files) && IsBackupName(n)
    ensures forall i, j :: 0 <= i < j < |r| ==> LexLess(r[j], r[i])
  {
    var up := SortedUnique(Matching(files));
    ReverseDescending(up);
    Reverse(up)
  }

  lemma ReverseDescending(up: seq<string>)
    requires StrictlySorted(up)
    ensures forall n :: n in Reverse(up) <==> n in up
    ensures forall i, j :: 0 <= i < j < |up| ==> LexLess(Reverse(up)[j], Reverse(up)[i])
  {
    var r := Reverse(up);
    forall n | n in up ensures n in r {
      var i :| 0 <= i < |up| && up[i] == n;
      assert r[|up| - 1 - i] == n;
    }
    forall i, j | 0 <= i < j < |up| ensures LexLess(r[j], r[i]) {
      assert r[j] == up[|up| - 1 - j] && r[i] == up[|up| - 1 - i];
    }
  }

  /** The backups a run keeps. */
  function Newest(files: Directory): (r: seq<string>)
    ensures |r| <= MaxBackups
  {
    var s := SortedBackups(files);
    if |s| > MaxBackups then s[..MaxBackups] else s
  }

  /** Removing one name more removes it from what is left. */
  lemma RemoveNamesStep(files: Directory, names: seq<string>, k: nat)
    requires k < |names|
    ensures RemoveNames(files, names[..k + 1]) == Remove(RemoveNames(files, names[..k]), names[k])
  {
    assert names[..k + 1][..k] == names[..k];
  }

  /** The backups a run removes: all after the first seven. */
  function Surplus(files: Directory): (r: seq<string>)
    ensures SortedBackups(files) == Newest(files) + r
  {
    var s := SortedBackups(files);
    if |s| > MaxBackups then s[MaxBackups..] else []
  }

  /** The directory after the clean-up. */
  function Prune(files: Directory): (r: Directory)
    ensures forall n :: n in Surplus(files) ==> Lookup(r, n).None?
    ensures forall n :: n !in Surplus(files) ==> Lookup(r, n) == Lookup(files, n)
  {
    RemoveNames(files, Surplus(files))
  }

  /** The clean-up keeps every file that is not a backup, and of the
      backups exactly the seven (or fewer) that sort last, with their
      contents. */
  lemma PruneKeepsNewest(files: Directory)
    ensures forall n :: Lookup(Prune(files), n) ==
              if IsBackupName(n) && n !in Newest(files) then None else Lookup(files, n)
    ensures forall n :: n in Matching(Prune(files)) ==> n in Newest(files)
  {
    var s := SortedBackups(files);
    forall n ensures n in Surplus(files) <==> n in Names(files) && IsBackupName(n) && n !in Newest(files) {
      if |s| > MaxBackups {
        assert s == s[..MaxBackups] + s[MaxBackups..];
        if n in s[MaxBackups..] && n in s[..MaxBackups] {
          var i :| 0 <= i < MaxBackups && s[i] == n;
          var j :| MaxBackups <= j < |s| && s[j] == n;
          LexLessIrreflexive(n);
        }
      }
    }
  }

  /** Every backup kept sorts after every backup removed. */
  lemma NewestAreGreatest(files: Directory, kept: string, removed: string)
    requires kept in Newest(files)
    requires removed in SortedBackups(files) && removed !in Newest(files)
    ensures LexLess(removed, kept)
  {
    var s := SortedBackups(files);
    var i :| 0 <= i < |Newest(files)| && Newest(files)[i] == kept;
    var j :| 0 <= j < |s| && s[j] == removed;
    assert s[i] == kept;
    assert Newest(files) == s[..|Newest(files)|];
    assert i < |Newest(files)| <= j;
  }

  /** A matching name that sorts after every other one comes first. */
  lemma GreatestComesFirst(files: Directory, name: string)
    requires name in Names(files) && IsBackupName(name)
    requires forall n :: n in Names(files) && IsBackupName(n) && n != name ==> LexLess(n, name)
    ensures SortedBackups(files) != [] && SortedBackups(files)[0] == name
  {
    var s := SortedBackups(files);
    var k :| 0 <= k < |s| && s[k] == name;
    if k != 0 {
      LexLessAsymmetric(s[k], s[0]);
    }
  }

  // ---------------------------------------------------------------------
  // Time stamps

  /** The local time the stamp is taken from. */
  datatype DateTime = DateTime(year: nat, month: nat, day: nat, hour: nat, minute: nat, second: nat)

  /** A clock reading with a four-digit year. */
  predicate ValidDateTime(t: DateTime) {
    1000 <= t.year <= 9999 && 1 <= t.month <= 12 && 1 <= t.day <= 31
    && t.hour < 24 && t.minute < 60 && t.second < 60
  }

  /** Whether one day comes before another. */
  predicate EarlierDate(a: DateTime, b: DateTime) {
    a.year < b.year || (a.year == b.year && (a.month < b.month || (a.month == b.month && a.day < b.day)))
  }

  predicate SameDate(a: DateTime, b: DateTime) {
    a.year == b.year && a.month == b.month && a.day == b.day
  }

  /** Whether one time of day comes before another. */
  predicate EarlierTime(a: DateTime, b: DateTime) {
    a.hour < b.hour || (a.hour == b.hour && (a.minute < b.minute || (a.minute == b.minute && a.second < b.second)))
  }

  predicate SameTime(a: DateTime, b: DateTime) {
    a.hour == b.hour && a.minute == b.minute && a.second == b.second
  }

  /** Whether one instant is earlier than another, field by field. */
  predicate Earlier(a: DateTime, b: DateTime) {
    EarlierDate(a, b) || (SameDate(a, b) && EarlierTime(a, b))
  }

  function Pow10(n: nat): (r: nat)
    ensures r >= 1
  {
    if n == 0 then 1 else 10 * Pow10(n - 1)
  }

  /** `n` in `width` decimal digits with leading zeros, as the "%Y", "%m",
      "%d", "%H", "%M" and "%S" directives write their fields. */
  function Pad(n: nat, width: nat): (r: string)
    requires n < Pow10(width)
    ensures |r| == width && AllDigits(r)
  {
    if width == 0 then "" else Pad(n / 10, width - 1) + [DigitChar(n % 10)]
  }

  lemma DigitCharOrder(x: nat, y: nat)
    requires x < 10 && y < 10
    ensures DigitChar(x) < DigitChar(y) <==> x < y
    ensures DigitChar(x) == DigitChar(y) <==> x == y
  {
  }

  /** One-character strings compare as their characters. */
  lemma LexLessSingle(x: char, y: char)
    ensures LexLess([x], [y]) <==> x < y
  {
    assert [x][1..] == [] && [y][1..] == [];
  }

  /** Writing in a fixed width keeps the order of numbers. */
  lemma {:induction false} PadOrder(a: nat, b: nat, width: nat)
    requires a < Pow10(width) && b < Pow10(width)
    ensures LexLess(Pad(a, width), Pad(b, width)) <==> a < b
    ensures Pad(a, width) == Pad(b, width) <==> a == b
  {
    if width == 0 {
      LexLessIrreflexive("");
      assert a == 0 && b == 0;
    } else {
      PadOrder(a / 10, b / 10, width - 1);
      var ca, cb := DigitChar(a % 10), DigitChar(b % 10);
      DigitCharOrder(a % 10, b % 10);
      LexLessSingle(ca, cb);
      LexLessConcat(Pad(a / 10, width - 1), [ca], Pad(b / 10, width - 1), [cb]);
    }
  }

  /** Comparing strings whose first parts have equal lengths compares the
      first parts, then the rest. */
  lemma {:induction false} LexLessConcat(x1: string, y1: string, x2: string, y2: string)
    requires |x1| == |x2|
    ensures LexLess(x1 + y1, x2 + y2) <==> LexLess(x1, x2) || (x1 == x2 && LexLess(y1, y2))
    ensures x1 + y1 == x2 + y2 <==> x1 == x2 && y1 == y2
  {
    if x1 == [] {
      assert x1 + y1 == y1 && x2 + y2 == y2;
    } else {
      assert (x1 + y1)[1..] == x1[1..] + y1 && (x2 + y2)[1..] == x2[1..] + y2;
      LexLessConcat(x1[1..], y1, x2[1..], y2);
      if x1[0] == x2[0] && x1[1..] == x2[1..] {
        assert x1 == [x1[0]] + x1[1..] && x2 == [x2[0]] + x2[1..];
      }
      if x1 + y1 == x2 + y2 {
        assert x1 == (x1 + y1)[..|x1|] && x2 == (x2 + y2)[..|x2|];
        assert y1 == (x1 + y1)[|x1|..] && y2 == (x2 + y2)[|x2|..];
      }
    }
  }

  /** `strftime("%Y%m%d")`. */
  function DatePart(t: DateTime): (r: string)
    requires ValidDateTime(t)
    ensures |r| == 8
  {
    Pad(t.year, 4) + Pad(t.month, 2) + Pad(t.day, 2)
  }

  /** `strftime("%H%M%S")`. */
  function TimePart(t: DateTime): (r: string)
    requires ValidDateTime(t)
    ensures |r| == 6
  {
    Pad(t.hour, 2) + Pad(t.minute, 2) + Pad(t.second, 2)
  }

  /** `strftime("%Y%m%d_%H%M%S")`. */
  function Timestamp(t: DateTime): (r: string)
    requires ValidDateTime(t)
    ensures |r| == 15
  {
    DatePart(t) + "_" + TimePart(t)
  }

  /** The file name of a backup taken at `t`. */
  function BackupName(t: DateTime): (r: string)
    requires ValidDateTime(t)
    ensures IsBackupName(r)
  {
    var r := "bot_" + Timestamp(t) + ".db";
    assert r[..4] == "bot_" && r[|r| - 3..] == ".db";
    r
  }

  lemma DatePartOrder(a: DateTime, b: DateTime)
    requires ValidDateTime(a) && ValidDateTime(b)
    ensures LexLess(DatePart(a), DatePart(b)) <==> EarlierDate(a, b)
    ensures DatePart(a) == DatePart(b) <==> SameDate(a, b)
  {
    PadOrder(a.year, b.year, 4);
    PadOrder(a.month, b.month, 2);
    PadOrder(a.day, b.day, 2);
    LexLessConcat(Pad(a.year, 4), Pad(a.month, 2), Pad(b.year, 4), Pad(b.month, 2));
    LexLessConcat(Pad(a.year, 4) + Pad(a.month, 2), Pad(a.day, 2), Pad(b.year, 4) + Pad(b.month, 2), Pad(b.day, 2));
  }

  lemma TimePartOrder(a: DateTime, b: DateTime)
    requires ValidDateTime(a) && ValidDateTime(b)
    ensures LexLess(TimePart(a), TimePart(b)) <==> EarlierTime(a, b)
    ensures TimePart(a) == TimePart(b) <==> SameTime(a, b)
  {
    PadOrder(a.hour, b.hour, 2);
    PadOrder(a.minute, b.minute, 2);
    PadOrder(a.second, b.second, 2);
    LexLessConcat(Pad(a.hour, 2), Pad(a.minute, 2), Pad(b.hour, 2), Pad(b.minute, 2));
    LexLessConcat(Pad(a.hour, 2) + Pad(a.minute, 2), Pad(a.second, 2), Pad(b.hour, 2) + Pad(b.minute, 2), Pad(b.second, 2));
  }

  lemma TimestampOrder(a: DateTime, b: DateTime)
    requires ValidDateTime(a) && ValidDateTime(b)
    ensures LexLess(Timestamp(a), Timestamp(b)) <==> Earlier(a, b)
    ensures Timestamp(a) == Timestamp(b) <==> a == b
  {
    DatePartOrder(a, b);
    TimePartOrder(a, b);
    LexLessIrreflexive("_");
    LexLessConcat(DatePart(a), "_", DatePart(b), "_");
    LexLessConcat(DatePart(a) + "_", TimePart(a), DatePart(b) + "_", TimePart(b));
  }

  /** Backup names sort in the order of their times: the backups that sort
      last are the newest. */
  lemma NamesSortByTime(a: DateTime, b: DateTime)
    requires ValidDateTime(a) && ValidDateTime(b)
    ensures LexLess(BackupName(a), BackupName(b)) <==> Earlier(a, b)
    ensures BackupName(a) == BackupName(b) <==> a == b
  {
    TimestampOrder(a, b);
    LexLessIrreflexive("bot_");
    LexLessIrreflexive(".db");
    LexLessConcat("bot_", Timestamp(a), "bot_", Timestamp(b));
    LexLessConcat("bot_" + Timestamp(a), ".db", "bot_" + Timestamp(b), ".db");
  }

  // ---------------------------------------------------------------------
  // The script

  /** The files the script touches: `data/bot.db`,
      `data/bot_before_restore.db` and the `backups` directory. */
  class BackupDisk {
    var database: Option<Contents>
    var beforeRestore: Option<Contents>
    var backups: Directory

    ghost predicate Valid()
      reads this
    {
      DistinctNames(backups)
    }

    constructor(database: Option<Contents>, beforeRestore: Option<Contents>, backups: Directory)
      requires DistinctNames(backups)
      ensures Valid()
      ensures this.database == database && this.beforeRestore == beforeRestore && this.backups == backups
    {
      this.database := database;
      this.beforeRestore := beforeRestore;
      this.backups := backups;
    }

    /** `backup_database` at the local time `now`: nothing without a
        database; otherwise the copy, then the clean-up. */
    method BackupDatabase(now: DateTime)
      requires Valid() && ValidDateTime(now)
      modifies this
      ensures Valid()
      ensures database == old(database) && beforeRestore == old(beforeRestore)
      ensures old(database).None? ==> backups == old(backups)
      ensures old(database).Some? ==> backups == Prune(Put(old(backups), BackupName(now), old(database).value))
    {
      if database.None? {
        return;
      }
      PutKeepsDistinct(backups, BackupName(now), database.value);
      backups := Put(backups, BackupName(now), database.value);
      ghost var copied := backups;
      var sorted := SortedBackups(backups);
      var surplus := if |sorted| > MaxBackups then sorted[MaxBackups..] else [];
      assert surplus == Surplus(copied);
      for k := 0 to |surplus|
        invariant backups == RemoveNames(copied, surplus[..k])
        invariant database == old(database) && beforeRestore == old(beforeRestore)
        invariant DistinctNames(backups)
      {
        RemoveNamesStep(copied, surplus, k);
        RemoveKeepsDistinct(backups, surplus[k]);
        backups := Remove(backups, surplus[k]);
      }
      assert surplus[..|surplus|] == surplus;
    }

    /** `restore_latest`: nothing without backups; otherwise the current
        database, if any, is saved and the backup that sorts last is copied
        over it. Returns the name restored from. */
    method RestoreLatest() returns (latest: Option<string>)
      modifies this
      ensures backups == old(backups)
      ensures SortedBackups(old(backups)) == [] ==>
                latest.None? && database == old(database) && beforeRestore == old(beforeRestore)
      ensures SortedBackups(old(backups)) != [] ==>
                && latest == Some(SortedBackups(old(backups))[0])
                && beforeRestore == (if old(database).Some? then old(database) else old(beforeRestore))
                && database == Lookup(old(backups), latest.value)
    {
      var sorted := SortedBackups(backups);
      if sorted == [] {
        return None;
      }
      var name := sorted[0];
      if database.Some? {
        beforeRestore := database;
      }
      database := Lookup(backups, name);
      latest := Some(name);
    }
  }

  /** The backup a restore picks is a backup, and it sorts after all the
      others. */
  lemma LatestIsGreatest(files: Directory)
    requires SortedBackups(files) != []
    ensures var latest := SortedBackups(files)[0];
            && IsBackupName(latest) && Lookup(files, latest).Some?
            && forall n :: n in Names(files) && IsBackupName(n) && n != latest ==> LexLess(n, latest)
  {
    var s := SortedBackups(files);
    assert s[0] in s;
    forall n | n in Names(files) && IsBackupName(n) && n != s[0] ensures LexLess(n, s[0]) {
      var j :| 0 <= j < |s| && s[j] == n;
    }
  }

  /** A backup taken later than every backup on disk survives the
      clean-up, and a restore right after it brings back the database it
      copied. */
  lemma RestoreAfterBackup(files: Directory, now: DateTime, c: Contents)
    requires ValidDateTime(now)
    requires forall n :: n in Names(files) && IsBackupName(n) ==> LexLess(n, BackupName(now))
    ensures var after := Prune(Put(files, BackupName(now), c));
            && Lookup(after, BackupName(now)) == Some(c)
            && SortedBackups(after) != [] && SortedBackups(after)[0] == BackupName(now)
  {
    var name := BackupName(now);
    var copied := Put(files, name, c);
    forall n | n in Names(copied) && IsBackupName(n) && n != name ensures LexLess(n, name) {
      assert n in Names(files);
    }
    GreatestComesFirst(copied, name);
    PruneKeepsNewest(copied);
    assert name in Newest(copied);
    var after := Prune(copied);
    assert Lookup(after, name) == Some(c);
    forall n | n in Names(after) && IsBackupName(n) && n != name ensures LexLess(n, name) {
      assert Lookup(after, n).Some?;
      assert n in Names(copied);
    }
    GreatestComesFirst(after, name);
  }

  /** Backups stamped at earlier times than `now` satisfy the condition of
      `RestoreAfterBackup`. */
  lemma EarlierBackupsSortFirst(before: DateTime, now: DateTime)
    requires ValidDateTime(before) && ValidDateTime(now) && Earlier(before, now)
    ensures LexLess(BackupName(before), BackupName(now))
  {
    NamesSortByTime(before, now);
  }
}
