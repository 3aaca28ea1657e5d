/** The background auto-message sender: a pass over the active rules that
    sends each rule's message to the users it selects and logs each send. */
module AutoSender {
  import opened Wrappers
  import opened Seqs
  import opened Models
  import opened Store
  import opened Messaging
  import opened AutoMessageService

  /** Seconds slept after a pass, and after a pass that raised. */
  const PollInterval: int := 300
  const ErrorRetryInterval: int := 60

  /** `send_auto_message`: nothing when the user's text is empty; otherwise
      the media switch, with the rule's buttons as the keyboard, or no
      keyboard when they cannot be decoded or built. */
  function AutoMessagePayload(rule: AutoMessage, language: string, decode: JsonDecoder): (r: Option<Payload>)
    ensures rule.GetMessage(language) == "" ==> r.None?
    ensures rule.GetMessage(language) != "" ==>
              r == MediaMessage(rule.GetMessage(language), rule.mediaType, rule.mediaFileId,
                                KeyboardOrNone(rule.buttonsJson, decode))
  {
    var text := rule.GetMessage(language);
    if text == "" then None
    else MediaMessage(text, rule.mediaType, rule.mediaFileId, KeyboardOrNone(rule.buttonsJson, decode))
  }

  /** Where a pass stands: the log, the number of users handled (the position
      of the next send), the messages handed to the provider, and whether
      the pass raised. */
  datatype PassState = PassState(log: seq<SentAutoMessage>, handled: nat, deliveries: seq<Delivery>, failed: bool)

  /** Handling one user: send, then log the pair unless the send raised. An
      early return of `send_auto_message` (no payload) does not raise, so the
      pair is logged although nothing was sent. */
  function HandleUser(u: User, rule: AutoMessage, st: PassState, now: Instant, decode: JsonDecoder, send: Provider): (r: PassState)
    ensures r.handled == st.handled + 1 && r.failed == st.failed
    ensures var payload := AutoMessagePayload(rule, u.language, decode);
            r.log == st.log + [SentAutoMessage(u.id, rule.id, now)]
            <==> payload.None? || send(Attempt(st.handled, false), Delivery(u.telegramId, payload.value)).Delivered?
    ensures r.log == st.log || r.log == st.log + [SentAutoMessage(u.id, rule.id, now)]
    ensures var payload := AutoMessagePayload(rule, u.language, decode);
            r.deliveries == st.deliveries + (if payload.Some? then [Delivery(u.telegramId, payload.value)] else [])
  {
    match AutoMessagePayload(rule, u.language, decode)
    case None =>
      PassState(st.log + [SentAutoMessage(u.id, rule.id, now)], st.handled + 1, st.deliveries, st.failed)
    case Some(p) =>
      var d := Delivery(u.telegramId, p);
      var logged := if send(Attempt(st.handled, false), d).Delivered? then [SentAutoMessage(u.id, rule.id, now)] else [];
      PassState(st.log + logged, st.handled + 1, st.deliveries + [d], st.failed)
  }

  /** Handling the selected users of one rule, in order. */
  function HandleUsers(users: seq<User>, rule: AutoMessage, st: PassState, now: Instant, decode: JsonDecoder, send: Provider): (r: PassState)
    ensures r.handled == st.handled + |users| && r.failed == st.failed
    ensures |st.log| <= |r.log| <= |st.log| + |users| && r.log[..|st.log|] == st.log
    ensures |r.deliveries| <= |st.deliveries| + |users|
    decreases |users|
  {
    if users == [] then st
    else HandleUser(users[|users| - 1], rule, HandleUsers(users[..|users| - 1], rule, st, now, decode, send), now, decode, send)
  }

  /** One rule: select against the log as it stands, then handle the users;
      a selection that raises ends the pass. */
  function HandleRule(rule: AutoMessage, users: seq<User>, st: PassState, now: Instant, decode: JsonDecoder, send: Provider): (r: PassState)
    ensures |st.log| <= |r.log| && r.log[..|st.log|] == st.log
    ensures |r.deliveries| - |st.deliveries| <= r.handled - st.handled
    ensures !r.failed ==> !st.failed && r.handled == st.handled + |Eligible(users, st.log, rule, now)|
  {
    match Selection(users, st.log, rule, now)
    case None => st.(failed := true)
    case Some(selected) => HandleUsers(selected, rule, st, now, decode, send)
  }

  /** The rules of a pass, in order, until one raises. */
  function HandleRules(rules: seq<AutoMessage>, users: seq<User>, log: seq<SentAutoMessage>, now: Instant, decode: JsonDecoder, send: Provider): (r: PassState)
    ensures |log| <= |r.log| && r.log[..|log|] == log
    ensures |r.deliveries| <= r.handled
    decreases |rules|
  {
    if rules == [] then PassState(log, 0, [], false)
    else
      var st := HandleRules(rules[..|rules| - 1], users, log, now, decode, send);
      if st.failed then st else HandleRule(rules[|rules| - 1], users, st, now, decode, send)
  }

  /** The rules a pass goes through: the active ones, by delay. */
  function ActiveRules(rules: seq<AutoMessage>): (r: seq<AutoMessage>)
    ensures forall m :: m in r <==> m in rules && m.isActive
    ensures SortedBy(r, (m: AutoMessage) => m.delayMinutes)
  {
    var sorted := GetAllAutoMessages(rules);
    FilterMembers(sorted, IsActive);
    assert forall m :: m in sorted <==> m in multiset(rules);
    FilterSorted(sorted, IsActive, (m: AutoMessage) => m.delayMinutes);
    Filter(sorted, IsActive)
  }

  predicate IsActive(m: AutoMessage) {
    m.isActive
  }

  /** A pass over one more rule, when the pass has not raised so far, is the
      pass so far followed by that rule. */
  lemma HandleRulesStep(rules: seq<AutoMessage>, k: nat, users: seq<User>, log: seq<SentAutoMessage>, now: Instant, decode: JsonDecoder, send: Provider)
    requires k < |rules|
    requires !HandleRules(rules[..k], users, log, now, decode, send).failed
    ensures HandleRules(rules[..k + 1], users, log, now, decode, send)
            == HandleRule(rules[k], users, HandleRules(rules[..k], users, log, now, decode, send), now, decode, send)
  {
    assert rules[..k + 1][..k] == rules[..k];
  }

  /** A pass that raised stays raised, whatever rules follow. */
  lemma {:induction false} FailedPassStaysFailed(rules: seq<AutoMessage>, k: nat, users: seq<User>, log: seq<SentAutoMessage>, now: Instant, decode: JsonDecoder, send: Provider)
    requires k <= |rules|
    requires HandleRules(rules[..k], users, log, now, decode, send).failed
    ensures HandleRules(rules, users, log, now, decode, send) == HandleRules(rules[..k], users, log, now, decode, send)
    decreases |rules| - k
  {
    if k < |rules| {
      assert rules[..k + 1][..k] == rules[..k];
      FailedPassStaysFailed(rules, k + 1, users, log, now, decode, send);
    } else {
      assert rules[..k] == rules;
    }
  }

  /** The inner loop of a pass: one rule's selected users, in order. A send
      that raises is caught and logged, and the user's pair is not marked. */
  method SendToUsers(db: Database, rule: AutoMessage, users: seq<User>, now: Instant, decode: JsonDecoder, send: Provider,
                     handled0: nat, deliveries0: seq<Delivery>)
    returns (handled: nat, deliveries: seq<Delivery>)
    modifies db`sentLog
    ensures var st := HandleUsers(users, rule, PassState(old(db.sentLog), handled0, deliveries0, false), now, decode, send);
            db.sentLog == st.log && handled == st.handled && deliveries == st.deliveries
  {
    ghost var before := PassState(db.sentLog, handled0, deliveries0, false);
    handled, deliveries := handled0, deliveries0;
    var j := 0;
    while j < |users|
      invariant 0 <= j <= |users|
      invariant var st := HandleUsers(users[..j], rule, before, now, decode, send);
                db.sentLog == st.log && handled == st.handled && deliveries == st.deliveries
    {
      var u := users[j];
      assert users[..j + 1][..j] == users[..j];
      var payload := AutoMessagePayload(rule, u.language, decode);
      var raised := false;
      if payload.Some? {
        var d := Delivery(u.telegramId, payload.value);
        deliveries := deliveries + [d];
        raised := !send(Attempt(handled, false), d).Delivered?;
      }
      if !raised {
        MarkAsSent(db, u.id, rule.id, now);
      }
      handled := handled + 1;
      j := j + 1;
    }
    assert users[..j] == users;
  }

  /** A users pass leaves the failed flag as it found it. */
  lemma {:induction false} HandleUsersKeepsFailed(users: seq<User>, rule: AutoMessage, st: PassState, now: Instant, decode: JsonDecoder, send: Provider)
    ensures HandleUsers(users, rule, st, now, decode, send).failed == st.failed
    decreases |users|
  {
    if users != [] {
      HandleUsersKeepsFailed(users[..|users| - 1], rule, st, now, decode, send);
    }
  }

  /** One pass of `send_auto_messages`. `completed` is false when the pass
      raised, which the loop answers by sleeping `ErrorRetryInterval`. */
  method RunPass(db: Database, now: Instant, decode: JsonDecoder, send: Provider) returns (completed: bool, deliveries: seq<Delivery>)
    modifies db`sentLog
    ensures var st := HandleRules(ActiveRules(old(db.autoMessages)), old(db.users), old(db.sentLog), now, decode, send);
            db.sentLog == st.log && deliveries == st.deliveries && completed == !st.failed
  {
    var rules := GetAllAutoMessages(db.autoMessages);
    var active := Filter(rules, IsActive);
    ghost var log0 := db.sentLog;
    ghost var users0 := db.users;
    var handled: nat := 0;
    deliveries := [];
    var k := 0;
    while k < |active|
      invariant 0 <= k <= |active|
      invariant db.users == users0
      invariant var st := HandleRules(active[..k], users0, log0, now, decode, send);
                !st.failed && db.sentLog == st.log && handled == st.handled && deliveries == st.deliveries
    {
      var rule := active[k];
      ghost var st := HandleRules(active[..k], users0, log0, now, decode, send);
      HandleRulesStep(active, k, users0, log0, now, decode, send);
      var selection := GetUsersForAutoMessage(db, rule, now);
      if selection.Err? {
        assert HandleRules(active[..k + 1], users0, log0, now, decode, send).failed;
        completed := false;
        FailedPassStaysFailed(active, k + 1, users0, log0, now, decode, send);
        return;
      }
      assert Selection(users0, st.log, rule, now) == Some(selection.value);
      assert st == PassState(db.sentLog, handled, deliveries, false);
      handled, deliveries := SendToUsers(db, rule, selection.value, now, decode, send, handled, deliveries);
      HandleUsersKeepsFailed(selection.value, rule, st, now, decode, send);
      k := k + 1;
    }
    assert active[..k] == active;
    completed := true;
  }

  /** No two users share a primary key. */
  ghost predicate DistinctIds(users: seq<User>) {
    forall i, j :: 0 <= i < |users| && 0 <= j < |users| && users[i].id == users[j].id ==> i == j
  }

  /** The log holds at most one row per user and rule. */
  ghost predicate AtMostOnce(log: seq<SentAutoMessage>) {
    forall userId: int, ruleId: int :: SentCount(log, userId, ruleId) <= 1
  }

  function IdsOf(users: seq<User>): set<int> {
    set i | 0 <= i < |users| :: users[i].id
  }

  /** Handling one rule's users adds at most one row for each of them and
      none for any other pair. */
  lemma {:induction false} HandleUsersRows(users: seq<User>, rule: AutoMessage, st: PassState, now: Instant, decode: JsonDecoder, send: Provider)
    requires DistinctIds(users)
    ensures var r := HandleUsers(users, rule, st, now, decode, send);
            forall userId: int, ruleId: int ::
              SentCount(r.log, userId, ruleId)
              <= SentCount(st.log, userId, ruleId) + (if ruleId == rule.id && userId in IdsOf(users) then 1 else 0)
    decreases |users|
  {
    if users != [] {
      var prefix := users[..|users| - 1];
      var x := users[|users| - 1];
      assert DistinctIds(prefix);
      HandleUsersRows(prefix, rule, st, now, decode, send);
      var mid := HandleUsers(prefix, rule, st, now, decode, send);
      var r := HandleUser(x, rule, mid, now, decode, send);
      assert x.id !in IdsOf(prefix);
      forall userId: int, ruleId: int
        ensures SentCount(r.log, userId, ruleId)
                <= SentCount(st.log, userId, ruleId) + (if ruleId == rule.id && userId in IdsOf(users) then 1 else 0)
      {
        if r.log != mid.log {
          SentCountSnoc(mid.log, SentAutoMessage(x.id, rule.id, now), userId, ruleId);
        }
        if userId in IdsOf(prefix) {
          var i :| 0 <= i < |prefix| && prefix[i].id == userId;
          assert users[i].id == userId;
        }
        if userId == x.id {
          assert users[|users| - 1].id == userId;
        }
      }
    }
  }

  /** With distinct user ids and at most one row per pair, a rule neither
      raises nor logs a second row for any pair. */
  lemma HandleRuleKeepsAtMostOnce(rule: AutoMessage, users: seq<User>, st: PassState, now: Instant, decode: JsonDecoder, send: Provider)
    requires DistinctIds(users) && AtMostOnce(st.log) && !st.failed
    ensures var r := HandleRule(rule, users, st, now, decode, send);
            !r.failed && AtMostOnce(r.log)
  {
    SelectionSucceedsWithoutDuplicates(users, st.log, rule, now);
    var selected := Eligible(users, st.log, rule, now);
    assert Unique(users, (u: User) => u.id);
    FilterUnique(users, ShouldReceive(st.log, rule, now), (u: User) => u.id);
    assert DistinctIds(selected);
    EligibleMembers(users, st.log, rule, now);
    HandleUsersRows(selected, rule, st, now, decode, send);
    HandleUsersKeepsFailed(selected, rule, st, now, decode, send);
    var r := HandleUsers(selected, rule, st, now, decode, send);
    forall userId: int, ruleId: int ensures SentCount(r.log, userId, ruleId) <= 1 {
      if ruleId == rule.id && userId in IdsOf(selected) {
        var i :| 0 <= i < |selected| && selected[i].id == userId;
        assert selected[i] in selected;
      }
    }
  }

  /** The no-duplicate guarantee of the auto sender: starting from a log with
      at most one row per pair, a pass never raises and leaves at most one
      row per pair. */
  lemma {:induction false} PassKeepsAtMostOnce(rules: seq<AutoMessage>, users: seq<User>, log: seq<SentAutoMessage>, now: Instant, decode: JsonDecoder, send: Provider)
    requires DistinctIds(users) && AtMostOnce(log)
    ensures var r := HandleRules(rules, users, log, now, decode, send);
            !r.failed && AtMostOnce(r.log)
    decreases |rules|
  {
    if rules != [] {
      PassKeepsAtMostOnce(rules[..|rules| - 1], users, log, now, decode, send);
      HandleRuleKeepsAtMostOnce(rules[|rules| - 1], users, HandleRules(rules[..|rules| - 1], users, log, now, decode, send), now, decode, send);
    }
  }

  /** The log and the pauses after a run of passes, one at each clock
      reading, each pass with its own provider. */
  function Schedule(rules: seq<AutoMessage>, users: seq<User>, log: seq<SentAutoMessage>, clock: seq<Instant>,
                    decode: JsonDecoder, sends: seq<Provider>): (r: (seq<SentAutoMessage>, seq<int>))
    requires |sends| == |clock|
    ensures |r.1| == |clock|
    ensures forall i :: 0 <= i < |r.1| ==> r.1[i] == PollInterval || r.1[i] == ErrorRetryInterval
    ensures |log| <= |r.0| && r.0[..|log|] == log
    decreases |clock|
  {
    if clock == [] then (log, [])
    else
      var n := |clock| - 1;
      var before := Schedule(rules, users, log, clock[..n], decode, sends[..n]);
      var st := HandleRules(ActiveRules(rules), users, before.0, clock[n], decode, sends[n]);
      (st.log, before.1 + [if st.failed then ErrorRetryInterval else PollInterval])
  }

  /** The sender loop, run for as many passes as there are clock readings:
      a pass, then a pause of five minutes, or of one minute after a pass
      that raised. */
  method Run(db: Database, clock: seq<Instant>, decode: JsonDecoder, sends: seq<Provider>) returns (pauses: seq<int>)
    requires |sends| == |clock|
    modifies db`sentLog
    ensures (db.sentLog, pauses) == Schedule(old(db.autoMessages), old(db.users), old(db.sentLog), clock, decode, sends)
  {
    ghost var log0 := db.sentLog;
    pauses := [];
    var n := 0;
    while n < |clock|
      invariant 0 <= n <= |clock|
      invariant db.users == old(db.users) && db.autoMessages == old(db.autoMessages)
      invariant (db.sentLog, pauses) == Schedule(db.autoMessages, db.users, log0, clock[..n], decode, sends[..n])
    {
      assert clock[..n + 1][..n] == clock[..n] && sends[..n + 1][..n] == sends[..n];
      var completed, _ := RunPass(db, clock[n], decode, sends[n]);
      pauses := pauses + [if completed then PollInterval else ErrorRetryInterval];
      n := n + 1;
    }
    assert clock[..n] == clock && sends[..n] == sends;
  }

  /** With distinct user ids and at most one row per pair, no pass ever
      raises, so the loop always pauses the full poll interval, and the log
      keeps at most one row per pair. */
  lemma {:induction false} ScheduleNeverRaises(rules: seq<AutoMessage>, users: seq<User>, log: seq<SentAutoMessage>, clock: seq<Instant>,
                                               decode: JsonDecoder, sends: seq<Provider>)
    requires |sends| == |clock|
    requires DistinctIds(users) && AtMostOnce(log)
    ensures var r := Schedule(rules, users, log, clock, decode, sends);
            AtMostOnce(r.0) && |r.1| == |clock| && forall i :: 0 <= i < |r.1| ==> r.1[i] == PollInterval
    decreases |clock|
  {
    if clock != [] {
      var n := |clock| - 1;
      ScheduleNeverRaises(rules, users, log, clock[..n], decode, sends[..n]);
      var before := Schedule(rules, users, log, clock[..n], decode, sends[..n]);
      PassKeepsAtMostOnce(ActiveRules(rules), users, before.0, clock[n], decode, sends[n]);
    }
  }

  /** Polls no further apart than a window is wide, starting no later than
      its end and ending no earlier than its start, include one inside it. */
  lemma {:induction false} SomePollInWindow(polls: seq<Instant>, lo: Instant, hi: Instant)
    requires |polls| > 0 && polls[0] <= hi && lo <= polls[|polls| - 1]
    requires forall i :: 0 <= i < |polls| - 1 ==> polls[i + 1] - polls[i] <= hi - lo
    ensures exists i :: 0 <= i < |polls| && lo <= polls[i] <= hi
    decreases |polls|
  {
    var n := |polls| - 1;
    if polls[n] > hi {
      SomePollInWindow(polls[..n], lo, hi);
      var i :| 0 <= i < n && lo <= polls[..n][i] <= hi;
      assert polls[i] == polls[..n][i];
    }
  }

  /** A rule reaches a matching user as long as passes start at most ten
      minutes (the window's width) apart across the user's window: the
      five-minute pause plus a pass of at most five minutes. */
  lemma UserSeenByDensePolls(u: User, rule: AutoMessage, polls: seq<Instant>)
    requires |polls| > 0
    requires polls[0] <= u.createdAt + rule.delayMinutes * Minute + WindowHalfWidth
    requires u.createdAt + rule.delayMinutes * Minute - WindowHalfWidth <= polls[|polls| - 1]
    requires forall i :: 0 <= i < |polls| - 1 ==> polls[i + 1] - polls[i] <= 2 * WindowHalfWidth
    ensures exists i :: 0 <= i < |polls| && InWindow(u, rule, polls[i])
  {
    var due := u.createdAt + rule.delayMinutes * Minute;
    SomePollInWindow(polls, due - WindowHalfWidth, due + WindowHalfWidth);
    var i :| 0 <= i < |polls| && due - WindowHalfWidth <= polls[i] <= due + WindowHalfWidth;
    assert InWindow(u, rule, polls[i]);
  }
}
